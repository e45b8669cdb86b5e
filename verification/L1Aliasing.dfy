/**
  Who may see whose bytes: clients of the L1 cache and the payload arrays that they share with it.
 */
module L1Aliasing {
  import opened Records
  import opened Recency
  import opened RecencyTheorems
  import opened L1Cache

  datatype CacheCall = Read(key: string) | ReadShared(key: string) | Write(key: string, record: HeapRecord)

  /** What a run of cache calls asks for, the payloads of its records being as they are now. */
  ghost function OpsOf(calls: seq<CacheCall>): seq<Op>
    reads Payloads(calls)
  {
    seq(|calls|, i requires 0 <= i < |calls| reads Payloads(calls) =>
      match calls[i]
      case Read(key) => GetOp(key)
      case ReadShared(key) => GetOp(key)
      case Write(key, record) => assert record.payload in Payloads(calls); SetOp(key, record.Value()))
  }

  ghost function Payloads(calls: seq<CacheCall>): set<array<byte>> {
    set c | c in calls && c.Write? :: c.record.payload
  }

  lemma {:induction false} RunOneMore(items: seq<Item>, ops: seq<Op>, op: Op, budget: nat)
    ensures RunOps(items, ops + [op], budget) == Apply(RunOps(items, ops, budget), op, budget)
    decreases |ops|
  {
    if ops == [] {
      assert [op][1..] == [];
    } else {
      assert (ops + [op])[1..] == ops[1..] + [op];
      RunOneMore(Apply(items, ops[0], budget), ops[1..], op, budget);
    }
  }

  /** Any run of cache calls does what the same run does to the list of items, and writes to no array that
      holds or held a stored payload. */
  method Perform(cache: Cache, calls: seq<CacheCall>)
    requires cache.Valid() && forall payload <- Payloads(calls) :: payload !in cache.Repr
    modifies cache.Repr
    ensures cache.Valid() && fresh(cache.Repr - old(cache.Repr))
    ensures old(cache.buffers) <= cache.buffers && fresh(cache.buffers - old(cache.buffers))
    ensures cache.items == RunOps(old(cache.items), old(OpsOf(calls)), cache.maxUsageBytes)
  {
    hide Cache.Valid, Cache.Consistent, Touch, Put, Find;
    ghost var items, ops := cache.items, OpsOf(calls);
    for i := 0 to |calls|
      invariant cache.Valid() && fresh(cache.Repr - old(cache.Repr))
      invariant old(cache.buffers) <= cache.buffers && fresh(cache.buffers - old(cache.buffers))
      invariant OpsOf(calls) == ops && cache.items == RunOps(items, ops[..i], cache.maxUsageBytes)
    {
      assert ops[..i + 1] == ops[..i] + [ops[i]];
      RunOneMore(items, ops[..i], ops[i], cache.maxUsageBytes);
      match calls[i] {
        case Read(key) => var _ := cache.Get(key);
        case ReadShared(key) => var _ := cache.GetReadonly(key);
        case Write(key, record) =>
          assert record.payload in Payloads(calls);
          PutNothing(cache.items, record.Value(), cache.maxUsageBytes);
          cache.Set(key, record);
      }
    }
    assert ops[..|calls|] == ops;
  }

  lemma PutNothing(items: seq<Item>, record: Record, budget: nat)
    ensures Put(items, "", record, budget) == items
  {
  }

  /** A record obtained with GetReadonly keeps its bytes whatever is done to the cache afterwards:
      overwriting its key, rewriting the very same record with new timestamps, evicting it. */
  method SharedPayloadIsStable(cache: Cache, key: string, stamp: int, calls: seq<CacheCall>)
    returns (found: Option<HeapRecord>)
    requires cache.Valid() && forall payload <- Payloads(calls) :: payload !in cache.Repr
    modifies cache.Repr
    ensures cache.Valid()
    ensures found.Some? <==> Find(old(cache.items), key).Some?
    ensures found.Some? ==> Some(found.value.Value()) == Find(old(cache.items), key)
  {
    found := cache.GetReadonly(key);
    if found.Some? {
      cache.Set(key, found.value.(lastCheckedAt := stamp));
    }
    Perform(cache, calls);
  }

  /** Writing anything to a payload after it was passed to Set, or to a payload returned by Get, does not
      reach the cache, whatever is done to the cache before and between the writes. */
  method PrivatePayloadIsPrivate(cache: Cache, key: string, record: HeapRecord, first: seq<byte>, calls: seq<CacheCall>)
    requires cache.Valid() && key != "" && |first| == record.payload.Length
    requires record.payload !in cache.buffers && record.payload !in cache.Repr && record.payload !in Payloads(calls)
    requires forall payload <- Payloads(calls) :: payload !in cache.Repr
    modifies cache.Repr, record.payload
    ensures cache.Valid()
    ensures var ops := [SetOp(key, old(record.Value()))] + old(OpsOf(calls)) + [GetOp(key)];
            cache.items == RunOps(old(cache.items), ops, cache.maxUsageBytes)
  {
    hide Cache.Valid, Cache.Consistent, Touch, Put, Find;
    ghost var items, ops, value := cache.items, OpsOf(calls), record.Value();
    cache.Set(key, record);
    Scribble(cache, record.payload, first);
    Perform(cache, calls);
    Scribble(cache, record.payload, first);
    var copy := cache.Get(key);
    if copy.Some? {
      var bytes := new byte[copy.value.payload.Length];
      Scribble(cache, copy.value.payload, bytes[..]);
    }
    RunOneMore(items, [SetOp(key, value)] + ops, GetOp(key), cache.maxUsageBytes);
    assert ([SetOp(key, value)] + ops)[1..] == ops;
  }

  /** A write to an array that is not one of the cache's leaves the cache as it is. */
  method Scribble(cache: Cache, payload: array<byte>, bytes: seq<byte>)
    requires cache.Valid() && payload !in cache.buffers && payload !in cache.Repr
    requires |bytes| == payload.Length
    modifies payload
    ensures cache.Valid() && cache.items == old(cache.items) && payload[..] == bytes
  {
    hide Cache.Valid, Cache.Consistent;
    for i := 0 to payload.Length
      invariant payload[..i] == bytes[..i]
      invariant cache.Valid() && cache.items == old(cache.items)
      modifies payload
    {
      payload[i] := bytes[i];
    }
  }
}
