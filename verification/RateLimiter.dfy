/** Per-IP rate limiting middleware and its periodic cleanup of stale buckets. */
module RateLimiter {
  import opened Wrappers
  import opened FixedWindow

  class IpRateLimiter {
    var ipBuckets: map<string, Bucket>
    const windowMs: int
    const maxRequests: int

    constructor (windowMs: int, maxRequests: int)
      ensures ipBuckets == BucketsAfter([], windowMs)
      ensures this.windowMs == windowMs && this.maxRequests == maxRequests
    {
      this.windowMs := windowMs;
      this.maxRequests := maxRequests;
      ipBuckets := map[];
    }

    /** One request; `admitted` says whether `next()` is called without an error. */
    method Limit(ip: string, now: int) returns (admitted: bool)
      modifies this`ipBuckets
      ensures admitted == Admits(Get(old(ipBuckets), ip), Hit(now, maxRequests))
      ensures ipBuckets == Handle(old(ipBuckets), Request(ip, Hit(now, maxRequests)), windowMs)
      ensures var expired := ip !in old(ipBuckets) || old(ipBuckets)[ip].resetTime < now;
              && (admitted <==> expired || old(ipBuckets)[ip].count < maxRequests)
              && ipBuckets == (if expired then old(ipBuckets)[ip := Bucket(1, now + windowMs)]
                               else if admitted then old(ipBuckets)[ip := Bucket(old(ipBuckets)[ip].count + 1, old(ipBuckets)[ip].resetTime)]
                               else old(ipBuckets))
    {
      if ip !in ipBuckets || now > ipBuckets[ip].resetTime {
        ipBuckets := ipBuckets[ip := Bucket(1, now + windowMs)];
        return true;
      }
      var record := ipBuckets[ip];
      if record.count >= maxRequests {
        return false;
      }
      ipBuckets := ipBuckets[ip := record.(count := record.count + 1)];
      return true;
    }

    /** The timer's loop over the entries of the map. */
    method CleanUp(now: int)
      modifies this`ipBuckets
      ensures ipBuckets == Handle(old(ipBuckets), Cleanup(now), windowMs)
      ensures forall ip :: ip in ipBuckets <==> ip in old(ipBuckets) && now <= old(ipBuckets)[ip].resetTime
      ensures forall ip :: ip in ipBuckets ==> ipBuckets[ip] == old(ipBuckets)[ip]
    {
      var keys := ipBuckets.Keys;
      while keys != {}
        invariant keys <= ipBuckets.Keys <= old(ipBuckets).Keys
        invariant forall k :: k in ipBuckets ==> ipBuckets[k] == old(ipBuckets)[k]
        invariant forall k :: k in old(ipBuckets) && k !in keys ==>
                    (k in ipBuckets <==> !(now > old(ipBuckets)[k].resetTime))
      {
        var key :| key in keys;
        if now > ipBuckets[key].resetTime {
          ipBuckets := ipBuckets - {key};
        }
        keys := keys - {key};
      }
    }
  }
}
