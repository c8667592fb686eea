/**
  The widget's time-limited cache: two string entries of the page's key/value store, one for
  the serialised reviews and one for the decimal time (in milliseconds) they were stored at.
 */
module Cache {
  import opened Wrappers
  import opened Decimal
  import opened Provider
  import opened Codec

  const CacheKey: string := "google_reviews_cache"
  const CacheTimeKey: string := "google_reviews_cache_time"
  /** 24 hours in milliseconds. */
  const CacheDuration: nat := 24 * 60 * 60 * 1000

  /** What `getCachedReviews` does: returns reviews, returns null, or throws from `JSON.parse`. */
  datatype CacheRead = Hit(reviews: seq<Review>) | Miss | Unparseable

  /** `localStorage.getItem(key)` is truthy: the entry exists and is not the empty string. */
  predicate Holds(store: map<string, string>, key: string) {
    key in store && store[key] != ""
  }

  /** The entry age is under the cache duration. */
  predicate IsFresh(storedAt: int, now: int) {
    now - storedAt < CacheDuration
  }

  /**
    `getCachedReviews()` at time `now`. A timestamp that `parseInt` cannot read gives an age
    of NaN, and `NaN < cacheDuration` is false, so that is a miss too.
   */
  function ReadCache(store: map<string, string>, now: int): (r: CacheRead)
    ensures r != Miss ==>
      Holds(store, CacheKey) && Holds(store, CacheTimeKey) &&
      ParseInt(store[CacheTimeKey]).Some? && IsFresh(ParseInt(store[CacheTimeKey]).value, now)
    ensures r.Hit? ==> DecodeReviews(store[CacheKey]) == Some(r.reviews)
  {
    if Holds(store, CacheKey) && Holds(store, CacheTimeKey) then
      match ParseInt(store[CacheTimeKey])
      case None => Miss
      case Some(storedAt) =>
        if IsFresh(storedAt, now) then
          match DecodeReviews(store[CacheKey])
          case Some(rs) => Hit(rs)
          case None => Unparseable
        else Miss
    else Miss
  }

  /** `cacheReviews(reviews)` at time `now`: both entries overwritten, every other entry kept. */
  function WriteCache(store: map<string, string>, rs: seq<Review>, now: nat): (after: map<string, string>)
    ensures after.Keys == store.Keys + {CacheKey, CacheTimeKey}
    ensures after[CacheKey] == EncodeReviews(rs)
    ensures after[CacheTimeKey] == NatToDecimal(now)
    ensures forall k :: k in store && k != CacheKey && k != CacheTimeKey ==> after[k] == store[k]
  {
    store[CacheKey := EncodeReviews(rs)][CacheTimeKey := NatToDecimal(now)]
  }

  /**
    Reading right after writing: the stored reviews come back, unchanged and in order, exactly
    while the entry is younger than 24 hours; from then on the read is a miss.
   */
  lemma ReadAfterWrite(store: map<string, string>, rs: seq<Review>, storedAt: nat, now: int)
    ensures ReadCache(WriteCache(store, rs, storedAt), now) ==
      if now - storedAt < CacheDuration then Hit(rs) else Miss
  {
    ParseIntOfDecimal(storedAt);
    DecodeEncoded(rs);
  }

  /** An entry read exactly 24 hours after it was written is already stale. */
  lemma StaleAtExactlyOneDay(store: map<string, string>, rs: seq<Review>, storedAt: nat)
    ensures ReadCache(WriteCache(store, rs, storedAt), storedAt + CacheDuration) == Miss
    ensures ReadCache(WriteCache(store, rs, storedAt), storedAt + CacheDuration - 1) == Hit(rs)
  {
    ReadAfterWrite(store, rs, storedAt, storedAt + CacheDuration);
    ReadAfterWrite(store, rs, storedAt, storedAt + CacheDuration - 1);
  }

  /**
    A read gives reviews only when both entries are present and non-empty, the timestamp
    reads as a time less than 24 hours before `now`, and the payload decodes to those reviews.
   */
  lemma HitIff(store: map<string, string>, now: int, rs: seq<Review>)
    ensures ReadCache(store, now) == Hit(rs) <==>
      Holds(store, CacheKey) && Holds(store, CacheTimeKey) &&
      ParseInt(store[CacheTimeKey]).Some? && IsFresh(ParseInt(store[CacheTimeKey]).value, now) &&
      DecodeReviews(store[CacheKey]) == Some(rs)
  {
  }

  /** A missing (or empty) entry means a miss, whatever the other entry holds. */
  lemma MissingEntryMisses(store: map<string, string>, now: int)
    requires !Holds(store, CacheKey) || !Holds(store, CacheTimeKey)
    ensures ReadCache(store, now) == Miss
  {
  }

  /**
    A timestamp that is stale, or that `parseInt` cannot read, makes the read a miss before the
    payload is looked at: whatever the payload holds, nothing is parsed and nothing throws.
   */
  lemma StaleOrUnreadableTimeMisses(store: map<string, string>, now: int)
    requires CacheTimeKey in store
    requires ParseInt(store[CacheTimeKey]).Some? ==> !IsFresh(ParseInt(store[CacheTimeKey]).value, now)
    ensures ReadCache(store, now) == Miss
  {
  }

  /** A read throws exactly when the entries are present, the time is fresh and the payload does not parse. */
  lemma UnparseableIff(store: map<string, string>, now: int)
    ensures ReadCache(store, now).Unparseable? <==>
      Holds(store, CacheKey) && Holds(store, CacheTimeKey) &&
      ParseInt(store[CacheTimeKey]).Some? && IsFresh(ParseInt(store[CacheTimeKey]).value, now) &&
      DecodeReviews(store[CacheKey]).None?
  {
  }

  /** Only the two cache entries matter to a read. */
  lemma ReadIgnoresOtherEntries(store: map<string, string>, key: string, value: string, now: int)
    requires key != CacheKey && key != CacheTimeKey
    ensures ReadCache(store[key := value], now) == ReadCache(store, now)
  {
    assert Holds(store[key := value], CacheKey) == Holds(store, CacheKey);
    assert Holds(store[key := value], CacheTimeKey) == Holds(store, CacheTimeKey);
  }

  /** Writing twice keeps only the second write. */
  lemma WriteOverwrites(store: map<string, string>, rs1: seq<Review>, t1: nat, rs2: seq<Review>, t2: nat)
    ensures WriteCache(WriteCache(store, rs1, t1), rs2, t2) == WriteCache(store, rs2, t2)
  {
  }
}
