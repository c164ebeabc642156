/**
 The per-IP token bucket. Tokens are counted in units of 10^-9 so that the refill per nanosecond is
 exactly requests_per_second units and one request costs 10^9 of them.
 */
module RateLimiter {
  import opened Prelude

  const COST: nat := 1_000_000_000

  datatype RateLimitConfig = RateLimitConfig(enabled: bool, requestsPerSecond: nat, burstSize: nat)

  datatype TokenBucket = TokenBucket(tokens: int, capacity: int, refillPerNs: nat, lastRefill: int)

  type Buckets = map<string, TokenBucket>

  // ---- One call, on values ----

  function NewBucket(cfg: RateLimitConfig, now: int): TokenBucket {
    TokenBucket(cfg.burstSize * COST, cfg.burstSize * COST, cfg.requestsPerSecond, now)
  }

  function Refill(b: TokenBucket, now: int): TokenBucket {
    if now - b.lastRefill > 0
    then b.(tokens := Min(b.capacity, b.tokens + (now - b.lastRefill) * b.refillPerNs), lastRefill := now)
    else b
  }

  /** The bucket a call at time `now` looks at. */
  function BucketAt(cfg: RateLimitConfig, buckets: Buckets, ip: string, now: int): TokenBucket {
    Refill(if ip in buckets then buckets[ip] else NewBucket(cfg, now), now)
  }

  predicate Exempt(cfg: RateLimitConfig, ip: string) {
    !cfg.enabled || ip == ""
  }

  function Acquire(cfg: RateLimitConfig, buckets: Buckets, ip: string, now: int): (Buckets, bool) {
    if Exempt(cfg, ip) then (buckets, true)
    else
      var b := BucketAt(cfg, buckets, ip, now);
      if b.tokens >= COST then (buckets[ip := b.(tokens := b.tokens - COST)], true)
      else (buckets[ip := b], false)
  }

  // ---- The object the source updates in place ----

  class PerIpRateLimiter {
    const cfg: RateLimitConfig
    var buckets: Buckets

    constructor (cfg: RateLimitConfig)
      ensures this.cfg == cfg && buckets == map[]
    {
      this.cfg := cfg;
      buckets := map[];
    }

    /**
     The source reads the clock once when it creates a bucket and once more when it refills; the
     first reading never matters.
     */
    method TryAcquire(ip: string, created: int, now: int) returns (granted: bool)
      requires created <= now
      modifies this
      ensures (buckets, granted) == Acquire(cfg, old(buckets), ip, now)
      ensures !cfg.enabled || ip == "" ==> granted && buckets == old(buckets)
    {
      if !cfg.enabled || ip == "" {
        return true;
      }
      GetOrCreate(ip, created);
      RefillInPlace(ip, now);
      if buckets[ip].tokens >= COST {
        buckets := buckets[ip := buckets[ip].(tokens := buckets[ip].tokens - COST)];
        assert buckets == old(buckets)[ip := buckets[ip]];
        return true;
      }
      assert buckets == old(buckets)[ip := buckets[ip]];
      return false;
    }

    method GetOrCreate(ip: string, now: int)
      modifies this
      ensures buckets == if ip in old(buckets) then old(buckets) else old(buckets)[ip := NewBucket(cfg, now)]
    {
      if ip !in buckets {
        buckets := buckets[ip := NewBucket(cfg, now)];
      }
    }

    method RefillInPlace(ip: string, now: int)
      requires ip in buckets
      modifies this
      ensures buckets == old(buckets)[ip := Refill(old(buckets[ip]), now)]
    {
      var elapsed := now - buckets[ip].lastRefill;
      if elapsed > 0 {
        var b := buckets[ip];
        buckets := buckets[ip := b.(tokens := Min(b.capacity, b.tokens + elapsed * b.refillPerNs), lastRefill := now)];
      }
    }

    method Reset(ip: string)
      modifies this
      ensures buckets == old(buckets) - {ip}
    {
      buckets := buckets - {ip};
    }
  }

  // ---- Runs ----

  datatype Event = Call(ip: string, now: int) | Forget(ip: string)

  /** The steady clock never goes back. */
  ghost predicate Monotone(es: seq<Event>) {
    forall i, j | 0 <= i < j < |es| && es[i].Call? && es[j].Call? :: es[i].now <= es[j].now
  }

  function Step(cfg: RateLimitConfig, buckets: Buckets, e: Event): Buckets {
    match e
    case Call(ip, now) => Acquire(cfg, buckets, ip, now).0
    case Forget(ip) => buckets - {ip}
  }

  /** The buckets after the first k events. */
  function StateAt(cfg: RateLimitConfig, es: seq<Event>, k: nat): Buckets
    requires k <= |es|
  {
    if k == 0 then map[] else Step(cfg, StateAt(cfg, es, k - 1), es[k - 1])
  }

  /** The limiter's answer to event k. */
  predicate Granted(cfg: RateLimitConfig, es: seq<Event>, k: nat)
    requires k < |es|
  {
    es[k].Call? && Acquire(cfg, StateAt(cfg, es, k), es[k].ip, es[k].now).1
  }

  /** The limiter's answers to a whole run. */
  function Decisions(cfg: RateLimitConfig, es: seq<Event>): (d: seq<bool>)
    ensures |d| == |es|
  {
    seq(|es|, k requires 0 <= k < |es| => Granted(cfg, es, k))
  }

  predicate IsCall(es: seq<Event>, ip: string, k: nat)
    requires k < |es|
  {
    es[k].Call? && es[k].ip == ip
  }

  /** How many calls of one IP among events i..k-1 a selection picks. */
  function Picked(es: seq<Event>, sel: seq<bool>, ip: string, i: nat, k: nat): nat
    requires i <= k <= |es| == |sel|
  {
    if i == k then 0
    else Picked(es, sel, ip, i, k - 1) + if IsCall(es, ip, k - 1) && sel[k - 1] then 1 else 0
  }

  /** Event i opens a window that event k closes: a call of the IP, with no reset of it in between. */
  predicate Window(es: seq<Event>, ip: string, i: nat, k: nat)
    requires i <= k < |es|
  {
    IsCall(es, ip, i) && IsCall(es, ip, k) && forall j | i <= j < k :: es[j] != Forget(ip)
  }

  /** What a window can still take: its burst and its refill, less what was picked in it. */
  function Room(cfg: RateLimitConfig, es: seq<Event>, sel: seq<bool>, ip: string, i: nat, k: nat): int
    requires i <= k < |es| == |sel| && IsCall(es, ip, i) && IsCall(es, ip, k)
  {
    cfg.burstSize * COST + cfg.requestsPerSecond * (es[k].now - es[i].now) - COST * Picked(es, sel, ip, i, k)
  }

  /** Picking call k keeps every window that ends with it within its budget. */
  ghost predicate Fits(cfg: RateLimitConfig, es: seq<Event>, sel: seq<bool>, ip: string, k: nat)
    requires k < |es| == |sel| && IsCall(es, ip, k)
  {
    forall i: nat | i <= k && Window(es, ip, i, k) :: COST <= Room(cfg, es, sel, ip, i, k)
  }

  // ---- The level of a bucket is the least room of any window ----

  /** A window that is still open before event k. */
  predicate Open(es: seq<Event>, ip: string, i: nat, k: nat)
    requires i < k <= |es|
  {
    IsCall(es, ip, i) && forall j | i <= j < k :: es[j] != Forget(ip)
  }

  /** Room of an open window as of time t. */
  function RoomAt(cfg: RateLimitConfig, es: seq<Event>, sel: seq<bool>, ip: string, i: nat, k: nat, t: int): int
    requires i < k <= |es| == |sel| && IsCall(es, ip, i)
  {
    cfg.burstSize * COST + cfg.requestsPerSecond * (t - es[i].now) - COST * Picked(es, sel, ip, i, k)
  }

  ghost predicate LevelIsLeastRoom(cfg: RateLimitConfig, es: seq<Event>, ip: string, k: nat, b: TokenBucket)
    requires k <= |es|
  {
    var sel := Decisions(cfg, es);
    && b.capacity == cfg.burstSize * COST
    && b.refillPerNs == cfg.requestsPerSecond
    && b.tokens <= b.capacity
    && (forall j: nat | k <= j < |es| && es[j].Call? :: b.lastRefill <= es[j].now)
    && (forall i: nat | i < k && Open(es, ip, i, k) :: b.tokens <= RoomAt(cfg, es, sel, ip, i, k, b.lastRefill))
    && (exists i: nat :: i < k && Open(es, ip, i, k) && b.tokens == RoomAt(cfg, es, sel, ip, i, k, b.lastRefill))
  }

  ghost predicate LevelInvariant(cfg: RateLimitConfig, es: seq<Event>, ip: string, k: nat)
    requires k <= |es|
  {
    var s := StateAt(cfg, es, k);
    if ip in s then LevelIsLeastRoom(cfg, es, ip, k, s[ip])
    else forall i: nat | i < k :: !Open(es, ip, i, k)
  }

  /** What a bucket of this limiter earns between two times. */
  function Earned(cfg: RateLimitConfig, from: int, to: int): int {
    cfg.requestsPerSecond * (to - from)
  }

  lemma RoomLater(cfg: RateLimitConfig, es: seq<Event>, sel: seq<bool>, ip: string, i: nat, k: nat, t: int)
    requires i < k < |es| == |sel| && IsCall(es, ip, i) && IsCall(es, ip, k)
    ensures Room(cfg, es, sel, ip, i, k) == RoomAt(cfg, es, sel, ip, i, k, t) + Earned(cfg, t, es[k].now)
  {
  }

  lemma RefillEarns(cfg: RateLimitConfig, b: TokenBucket, now: int)
    requires b.refillPerNs == cfg.requestsPerSecond && b.lastRefill <= now && b.tokens <= b.capacity
    ensures Refill(b, now) == b.(tokens := Min(b.capacity, b.tokens + Earned(cfg, b.lastRefill, now)), lastRefill := now)
  {
  }

  /** The bucket a call looks at holds exactly the least room over all windows the call closes. */
  lemma LookedAt(cfg: RateLimitConfig, es: seq<Event>, ip: string, k: nat)
    requires k < |es| && IsCall(es, ip, k) && cfg.enabled && ip != "" && Monotone(es)
    requires LevelInvariant(cfg, es, ip, k)
    ensures var b, sel := BucketAt(cfg, StateAt(cfg, es, k), ip, es[k].now), Decisions(cfg, es);
      && b.capacity == cfg.burstSize * COST && b.refillPerNs == cfg.requestsPerSecond
      && b.lastRefill == es[k].now
      && (forall i: nat | i <= k && Window(es, ip, i, k) :: b.tokens <= Room(cfg, es, sel, ip, i, k))
      && (exists i: nat :: i <= k && Window(es, ip, i, k) && b.tokens == Room(cfg, es, sel, ip, i, k))
  {
    var s, sel := StateAt(cfg, es, k), Decisions(cfg, es);
    assert Window(es, ip, k, k) && Room(cfg, es, sel, ip, k, k) == cfg.burstSize * COST;
    forall i: nat | i < k ensures Window(es, ip, i, k) <==> Open(es, ip, i, k) {
    }
    if ip in s {
      LookedAtOld(cfg, es, ip, k, s[ip]);
    }
  }

  lemma LookedAtOld(cfg: RateLimitConfig, es: seq<Event>, ip: string, k: nat, o: TokenBucket)
    requires k < |es| && IsCall(es, ip, k) && LevelIsLeastRoom(cfg, es, ip, k, o)
    ensures var b, sel := Refill(o, es[k].now), Decisions(cfg, es);
      && b.capacity == cfg.burstSize * COST && b.refillPerNs == cfg.requestsPerSecond
      && b.lastRefill == es[k].now
      && (forall i: nat | i <= k && Window(es, ip, i, k) :: b.tokens <= Room(cfg, es, sel, ip, i, k))
      && (exists i: nat :: i <= k && Window(es, ip, i, k) && b.tokens == Room(cfg, es, sel, ip, i, k))
  {
    var sel, gain := Decisions(cfg, es), Earned(cfg, o.lastRefill, es[k].now);
    RefillEarns(cfg, o, es[k].now);
    assert Window(es, ip, k, k) && Room(cfg, es, sel, ip, k, k) == cfg.burstSize * COST;
    forall i: nat | i < k && Window(es, ip, i, k)
      ensures Open(es, ip, i, k) && o.tokens + gain <= Room(cfg, es, sel, ip, i, k)
    {
      RoomLater(cfg, es, sel, ip, i, k, o.lastRefill);
    }
    var w: nat :| w < k && Open(es, ip, w, k) && o.tokens == RoomAt(cfg, es, sel, ip, w, k, o.lastRefill);
    assert Window(es, ip, w, k);
    RoomLater(cfg, es, sel, ip, w, k, o.lastRefill);
  }

  lemma LevelStep(cfg: RateLimitConfig, es: seq<Event>, ip: string, k: nat, n: nat)
    requires k < |es| && n == k + 1 && cfg.enabled && ip != "" && Monotone(es)
    requires LevelInvariant(cfg, es, ip, k)
    ensures LevelInvariant(cfg, es, ip, n)
  {
    var s, t, sel := StateAt(cfg, es, k), StateAt(cfg, es, n), Decisions(cfg, es);
    assert t == Step(cfg, s, es[k]);
    forall i: nat | i < k ensures Open(es, ip, i, n) <==> Open(es, ip, i, k) && es[k] != Forget(ip) {
    }
    if IsCall(es, ip, k) {
      LookedAt(cfg, es, ip, k);
      var b := BucketAt(cfg, s, ip, es[k].now);
      var paid := if sel[k] then COST else 0;
      assert t[ip] == b.(tokens := b.tokens - paid);
      forall i: nat | i < n && Open(es, ip, i, n)
        ensures Window(es, ip, i, k)
        ensures RoomAt(cfg, es, sel, ip, i, n, b.lastRefill) == Room(cfg, es, sel, ip, i, k) - paid
      {
      }
      var w: nat :| w <= k && Window(es, ip, w, k) && b.tokens == Room(cfg, es, sel, ip, w, k);
      assert Open(es, ip, w, n);
    } else if es[k] != Forget(ip) && ip in s {
      assert t[ip] == s[ip];
      forall i: nat | i < n && Open(es, ip, i, n)
        ensures Open(es, ip, i, k)
        ensures RoomAt(cfg, es, sel, ip, i, n, s[ip].lastRefill) == RoomAt(cfg, es, sel, ip, i, k, s[ip].lastRefill)
      {
      }
      var w: nat :| w < k && Open(es, ip, w, k)
        && s[ip].tokens == RoomAt(cfg, es, sel, ip, w, k, s[ip].lastRefill);
      assert Open(es, ip, w, n);
    }
  }

  lemma {:induction false} LevelAlways(cfg: RateLimitConfig, es: seq<Event>, ip: string, k: nat)
    requires k <= |es| && cfg.enabled && ip != "" && Monotone(es)
    ensures LevelInvariant(cfg, es, ip, k)
  {
    if k > 0 {
      LevelAlways(cfg, es, ip, k - 1);
      LevelStep(cfg, es, ip, k - 1, k);
    }
  }

  /**
   Exactness. In any run, refused calls included, a call is granted if and only if every window it
   closes still has room for it: no window is ever overdrawn and no conforming call is refused.
   */
  lemma GrantedIffFits(cfg: RateLimitConfig, es: seq<Event>, ip: string, k: nat)
    requires k < |es| && IsCall(es, ip, k) && cfg.enabled && ip != "" && Monotone(es)
    ensures Granted(cfg, es, k) <==> Fits(cfg, es, Decisions(cfg, es), ip, k)
  {
    LevelAlways(cfg, es, ip, k);
    LookedAt(cfg, es, ip, k);
  }

  /**
   The limiter's answer to every event of every run: a call is granted if and only if the limiter is off,
   the IP is unknown, or all windows the call closes have room for it. A call that is not limited
   touches no bucket, and no event touches the bucket of another IP.
   */
  lemma GrantedExactly(cfg: RateLimitConfig, es: seq<Event>, k: nat)
    requires k < |es| && Monotone(es)
    ensures Granted(cfg, es, k)
       <==> es[k].Call? && (!cfg.enabled || es[k].ip == "" || Fits(cfg, es, Decisions(cfg, es), es[k].ip, k))
    ensures es[k].Call? && (!cfg.enabled || es[k].ip == "") ==> StateAt(cfg, es, k + 1) == StateAt(cfg, es, k)
    ensures StateAt(cfg, es, k + 1) - {es[k].ip} == StateAt(cfg, es, k) - {es[k].ip}
    ensures es[k].Forget? ==> es[k].ip !in StateAt(cfg, es, k + 1)
  {
    if es[k].Call? && cfg.enabled && es[k].ip != "" {
      GrantedIffFits(cfg, es, es[k].ip, k);
    }
  }

  /** The bound of one window, as a count of requests and nanoseconds. */
  lemma WindowBound(cfg: RateLimitConfig, es: seq<Event>, ip: string, i: nat, k: nat, granted: nat)
    requires i <= k < |es| && cfg.enabled && ip != "" && Monotone(es) && Window(es, ip, i, k) && Granted(cfg, es, k)
    requires granted <= Picked(es, Decisions(cfg, es), ip, i, k)
    ensures (granted + 1) * 1_000_000_000
         <= cfg.burstSize * 1_000_000_000 + cfg.requestsPerSecond * (es[k].now - es[i].now)
  {
    GrantedIffFits(cfg, es, ip, k);
    assert COST <= Room(cfg, es, Decisions(cfg, es), ip, i, k);
  }

  // ---- Optimality ----

  /** A selection of calls of one IP in which every window keeps to its budget. */
  ghost predicate Conforms(cfg: RateLimitConfig, es: seq<Event>, sel: seq<bool>, ip: string)
    requires |sel| == |es|
  {
    forall k: nat | k < |es| && IsCall(es, ip, k) && sel[k] :: Fits(cfg, es, sel, ip, k)
  }

  lemma LimiterConforms(cfg: RateLimitConfig, es: seq<Event>, ip: string)
    requires cfg.enabled && ip != "" && Monotone(es)
    ensures Conforms(cfg, es, Decisions(cfg, es), ip)
  {
    forall k: nat | k < |es| && IsCall(es, ip, k) && Decisions(cfg, es)[k]
      ensures Fits(cfg, es, Decisions(cfg, es), ip, k)
    {
      GrantedIffFits(cfg, es, ip, k);
    }
  }

  lemma {:induction false} PickedSplit(es: seq<Event>, sel: seq<bool>, ip: string, i: nat, k: nat)
    requires i <= k <= |es| == |sel|
    ensures Picked(es, sel, ip, 0, k) == Picked(es, sel, ip, 0, i) + Picked(es, sel, ip, i, k)
    decreases k
  {
    if i < k {
      PickedSplit(es, sel, ip, i, k - 1);
    }
  }

  /** Optimality: at every prefix the limiter has granted at least as many calls as any conforming selection. */
  lemma {:induction false} LimiterIsOptimal(
      cfg: RateLimitConfig, es: seq<Event>, sel: seq<bool>, ip: string, k: nat)
    requires k <= |es| == |sel| && cfg.enabled && ip != "" && Monotone(es) && Conforms(cfg, es, sel, ip)
    ensures Picked(es, sel, ip, 0, k) <= Picked(es, Decisions(cfg, es), ip, 0, k)
    decreases k
  {
    if k > 0 {
      var j, ours := k - 1, Decisions(cfg, es);
      LimiterIsOptimal(cfg, es, sel, ip, j);
      if IsCall(es, ip, j) && sel[j] && !ours[j] {
        GrantedIffFits(cfg, es, ip, j);
        var i: nat :| i <= j && Window(es, ip, i, j) && Room(cfg, es, ours, ip, i, j) < COST;
        assert COST <= Room(cfg, es, sel, ip, i, j);
        LimiterIsOptimal(cfg, es, sel, ip, i);
        PickedSplit(es, sel, ip, i, j);
        PickedSplit(es, ours, ip, i, j);
      }
    }
  }
}
