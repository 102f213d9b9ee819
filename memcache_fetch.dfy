/** What MCache's read leaves in the cache's data and expiration fields, as the source writes it and
    as corrected. */
module MemcacheFetch {
  import opened Outcomes
  import opened PhpValue
  import opened Expiration
  import opened Stores

  /** _getCache as written: data is what Memcache::get returned (false on a miss); a falsy result
      sets the expiration to 0, anything else leaves the expiration as it was. */
  function FetchAsWritten(got: Value, expiration: Value): (r: (Value, Value))
    ensures r.0 == got
    ensures !Truthy(got) ==> r.1 == Int(0)
    ensures Truthy(got) ==> r.1 == expiration
  {
    if Truthy(got) then (got, expiration) else (got, Int(0))
  }

  /** The value Memcache::get returns for a stored item, or false on a miss. */
  function Got(item: Option<MemItem>): Value
  {
    match item
    case Some(i) => i.data
    case None => Bool(false)
  }

  /** _getCache as corrected: a truthy hit also takes the expiration the item was stored with, so a
      cache object that has not set an expiration itself can return a hit. */
  function Fetch(item: Option<MemItem>, expiration: Value): (r: (Value, Value))
    ensures r.0 == Got(item)
    ensures !Truthy(Got(item)) ==> r == FetchAsWritten(Got(item), expiration)
    ensures Truthy(Got(item)) ==> r.1 == item.value.expiration
  {
    if Truthy(Got(item)) then (item.value.data, item.value.expiration) else (Got(item), Int(0))
  }

  /** As written, a fresh cache object (expiration still null) treats every hit as expired. */
  lemma FreshHitIsExpiredAsWritten(item: MemItem, now: int)
    requires Truthy(item.data)
    ensures Expired(FetchAsWritten(item.data, Null).1, now)
  {
  }

  /** As written, the hit on a fresh object is lost, whatever the item's own expiration. */
  lemma FreshHitLostAsWritten(now: nat)
    ensures !Expired(MemItem(Str("x"), Int(now + OneDay)).expiration, now)
    ensures Expired(FetchAsWritten(Str("x"), Null).1, now)
  {
    ExpiredInt(now + OneDay, now);
  }

  /** Corrected, a hit is stale exactly when the item's own expiration is stale. */
  lemma HitUsesStoredExpiration(item: MemItem, expiration: Value, now: int)
    requires Truthy(item.data)
    ensures Fetch(Some(item), expiration).0 == item.data
    ensures Expired(Fetch(Some(item), expiration).1, now) <==> Expired(item.expiration, now)
  {
  }

  /** A miss, corrected or not, forces the expiration to 0, which is always stale. */
  lemma MissIsExpired(expiration: Value, now: int)
    ensures Fetch(None, expiration) == (Bool(false), Int(0))
    ensures Expired(Fetch(None, expiration).1, now)
  {
  }
}
