/**
  Cache records and the expiry rules of the version service.

  Times are nanoseconds counted from the zero instant of Go's `time.Time`, so 0 is the
  instant for which `IsZero` answers true and every reading of a real clock is positive.
 */
module Records {

  newtype byte = x: int | 0 <= x < 256
  type Bytes = seq<byte>

  datatype Option<+T> = None | Some(value: T)

  const ZERO_TIME := 0

  datatype Record = Record(
    payload: Bytes,
    etag: string,
    url: string,
    fetchedAt: int,
    lastHitAt: int,
    lastCheckedAt: int,
    expiresAt: int,
    sourceStatus: int)

  predicate IsNegativeCacheableStatus(status: int) {
    status == 404 || status == 410
  }

  predicate ShouldServeNegativeCachedRecord(record: Record, now: int) {
    IsNegativeCacheableStatus(record.sourceStatus) && record.expiresAt != ZERO_TIME && record.expiresAt > now
  }

  /** Records without an expiry instant fall back to the fetch instant, then to the last check. */
  predicate IsHardExpired(record: Record, now: int, hardTTL: int) {
    if hardTTL <= 0 then
      false
    else if record.expiresAt != ZERO_TIME then
      !(record.expiresAt > now)
    else
      var base := if record.fetchedAt == ZERO_TIME then record.lastCheckedAt else record.fetchedAt;
      base != ZERO_TIME && !(base + hardTTL > now)
  }

  function HardExpiresAt(now: int, hardTTL: int): int {
    if hardTTL <= 0 then ZERO_TIME else now + hardTTL
  }

  predicate ShouldBypassCacheWrite(status: int) {
    status == 401 || status == 403 || status == 429 || status >= 500
  }

  predicate IsRevalidationDue(lastCheckedAt: int, now: int, interval: int) {
    !(lastCheckedAt + interval > now)
  }
}
