/** check_request and record_outcome: the four guards in their order, over whole runs of a shard. */
module Admission {
  import opened Prelude
  import Filter = IpFilter
  import RateLimiter
  import CircuitBreaker

  datatype Verdict = OK | Forbidden | Unauthorized | TooManyRequests | ServiceUnavailable

  /** `keys` is None when API keys are not required. */
  datatype Policies = Policies(
    filter: Filter.IpFilter,
    keys: Option<seq<string>>,
    rate: RateLimiter.RateLimitConfig,
    breaker: CircuitBreaker.CircuitBreakerConfig)

  /** The state the guards keep. */
  datatype Guards = Guards(buckets: RateLimiter.Buckets, states: CircuitBreaker.States)

  const NO_STATE := Guards(map[], map[])

  datatype Request = Request(ip: string, address: Filter.Address, key: string)

  /** The filter and the key check let the request through to the rate limiter. */
  predicate Known(p: Policies, r: Request) {
    Filter.Allowed(p.filter, r.address) && (p.keys.Some? ==> r.key in p.keys.value)
  }

  function Check(p: Policies, g: Guards, r: Request, now: int): (Guards, Verdict) {
    if !Filter.Allowed(p.filter, r.address) then (g, Forbidden)
    else if p.keys.Some? && r.key !in p.keys.value then (g, Unauthorized)
    else
      var (buckets, granted) := RateLimiter.Acquire(p.rate, g.buckets, r.ip, now);
      if !granted then (g.(buckets := buckets), TooManyRequests)
      else if CircuitBreaker.Exempt(p.breaker, r.ip) then (g.(buckets := buckets), OK)
      else
        var (s, allowed) := CircuitBreaker.Allow(p.breaker, CircuitBreaker.Lookup(g.states, r.ip), now);
        (Guards(buckets, g.states[r.ip := s]), if allowed then OK else ServiceUnavailable)
  }

  function Outcome(p: Policies, g: Guards, ip: string, isError: bool, now: int): Guards {
    if CircuitBreaker.Exempt(p.breaker, ip) then g
    else
      var s := CircuitBreaker.Lookup(g.states, ip);
      g.(states := g.states[ip := if isError then CircuitBreaker.Fail(p.breaker, s, now) else CircuitBreaker.Succeed(p.breaker, s)])
  }

  /** The verdict names the first guard that objects; a request is admitted if and only if none does. */
  lemma {:induction false} FirstObjectionDecides(p: Policies, cfg: Filter.IpFilterConfig, g: Guards, r: Request, now: int)
    requires Filter.CompiledFrom(p.filter, cfg)
    ensures var verdict := Check(p, g, r, now).1;
      var listed, keyed := Filter.Policy(cfg, r.address), p.keys.None? || r.key in p.keys.value;
      var token := RateLimiter.Acquire(p.rate, g.buckets, r.ip, now).1;
      var closed := CircuitBreaker.Exempt(p.breaker, r.ip)
        || CircuitBreaker.Allow(p.breaker, CircuitBreaker.Lookup(g.states, r.ip), now).1;
      && (verdict == OK <==> listed && keyed && token && closed)
      && (verdict == Forbidden <==> !listed)
      && (verdict == Unauthorized <==> listed && !keyed)
      && (verdict == TooManyRequests <==> listed && keyed && !token)
      && (verdict == ServiceUnavailable <==> listed && keyed && token && !closed)
  {
    Filter.FilterMeetsPolicy(cfg, p.filter, r.address);
  }

  /**
   Only an admitted request costs a probe: any other verdict leaves every breaker as it was. A refusal
   by the breaker has used up a token all the same; earlier refusals have not even looked at the bucket.
   */
  lemma RefusalsCostNoProbe(p: Policies, g: Guards, r: Request, now: int)
    ensures var (after, verdict) := Check(p, g, r, now);
      && (verdict != OK ==> forall ip :: CircuitBreaker.Lookup(after.states, ip) == CircuitBreaker.Lookup(g.states, ip))
      && (verdict == Forbidden || verdict == Unauthorized ==> after == g)
      && (verdict == OK || verdict == ServiceUnavailable ==>
            RateLimiter.Acquire(p.rate, g.buckets, r.ip, now) == (after.buckets, true))
  {
  }

  // ---- Runs ----

  datatype Event = Checked(r: Request, now: int) | Reported(ip: string, isError: bool, now: int)

  function Step(p: Policies, g: Guards, e: Event): Guards {
    match e
    case Checked(r, now) => Check(p, g, r, now).0
    case Reported(ip, isError, now) => Outcome(p, g, ip, isError, now)
  }

  function GuardsAt(p: Policies, es: seq<Event>, k: nat): Guards
    requires k <= |es|
  {
    if k == 0 then NO_STATE else Step(p, GuardsAt(p, es, k - 1), es[k - 1])
  }

  /** Event k is a request of the IP, and it is let in. */
  predicate Admits(p: Policies, es: seq<Event>, ip: string, k: nat)
    requires k < |es|
  {
    es[k].Checked? && es[k].r.ip == ip && Check(p, GuardsAt(p, es, k), es[k].r, es[k].now).1 == OK
  }

  /** Requests of an IP let in among events i..k-1. */
  function Admitted(p: Policies, es: seq<Event>, ip: string, i: nat, k: nat): nat
    requires i <= k <= |es|
  {
    if i == k then 0 else Admitted(p, es, ip, i, k - 1) + if Admits(p, es, ip, k - 1) then 1 else 0
  }

  /** The steady clock never goes back. */
  ghost predicate Monotone(es: seq<Event>) {
    forall i, j | 0 <= i < j < |es| :: es[i].now <= es[j].now
  }

  // ---- The rate limiter's view of a run ----

  /** The calls that reach the rate limiter among the first k events. */
  function Calls(p: Policies, es: seq<Event>, k: nat): (cs: seq<RateLimiter.Event>)
    requires k <= |es|
    ensures |cs| <= k
  {
    if k == 0 then []
    else if es[k - 1].Checked? && Known(p, es[k - 1].r)
    then Calls(p, es, k - 1) + [RateLimiter.Call(es[k - 1].r.ip, es[k - 1].now)]
    else Calls(p, es, k - 1)
  }

  lemma {:induction false} CallsGrow(p: Policies, es: seq<Event>, i: nat, k: nat)
    requires i <= k <= |es|
    ensures |Calls(p, es, i)| <= |Calls(p, es, k)| && Calls(p, es, k)[..|Calls(p, es, i)|] == Calls(p, es, i)
    decreases k
  {
    if i < k {
      CallsGrow(p, es, i, k - 1);
    }
  }

  lemma {:induction false} StatePrefix(
      cfg: RateLimiter.RateLimitConfig, a: seq<RateLimiter.Event>, b: seq<RateLimiter.Event>, k: nat)
    requires k <= |a| <= |b| && b[..|a|] == a
    ensures RateLimiter.StateAt(cfg, a, k) == RateLimiter.StateAt(cfg, b, k)
  {
    if k > 0 {
      StatePrefix(cfg, a, b, k - 1);
      assert b[..|a|][k - 1] == b[k - 1];
    }
  }

  lemma StepBuckets(p: Policies, g: Guards, e: Event)
    ensures Step(p, g, e).buckets
         == if e.Checked? && Known(p, e.r)
            then RateLimiter.Step(p.rate, g.buckets, RateLimiter.Call(e.r.ip, e.now)) else g.buckets
  {
  }

  lemma {:induction false} BucketsFollowCalls(p: Policies, es: seq<Event>, k: nat)
    requires k <= |es|
    ensures GuardsAt(p, es, k).buckets == RateLimiter.StateAt(p.rate, Calls(p, es, k), |Calls(p, es, k)|)
  {
    if k > 0 {
      BucketsFollowCalls(p, es, k - 1);
      StepBuckets(p, GuardsAt(p, es, k - 1), es[k - 1]);
      if es[k - 1].Checked? && Known(p, es[k - 1].r) {
        StatePrefix(p.rate, Calls(p, es, k - 1), Calls(p, es, k), |Calls(p, es, k - 1)|);
      }
    }
  }

  lemma {:induction false} CallsMonotone(p: Policies, es: seq<Event>, k: nat)
    requires k <= |es| && Monotone(es)
    ensures RateLimiter.Monotone(Calls(p, es, k))
    ensures forall c | c in Calls(p, es, k) :: c.Call? && exists i :: 0 <= i < k && es[i].now == c.now
  {
    if k > 0 {
      CallsMonotone(p, es, k - 1);
      var before := Calls(p, es, k - 1);
      if es[k - 1].Checked? && Known(p, es[k - 1].r) {
        var after := Calls(p, es, k);
        forall i, j | 0 <= i < j < |after| ensures after[i].now <= after[j].now {
          assert i < |before| ==> after[i] in before;
        }
        forall c | c in after ensures c.Call? && exists i :: 0 <= i < k && es[i].now == c.now {
          assert c in before || c == after[|before|];
          assert c == after[|before|] ==> es[k - 1].now == c.now;
        }
      }
    }
  }

  /** A request that reaches the limiter is a call in the limiter's run, and gets the answer it gets there. */
  lemma ReachesLimiter(p: Policies, es: seq<Event>, k: nat, n: nat)
    requires k < n <= |es| && es[k].Checked? && Known(p, es[k].r)
    ensures var j, all := |Calls(p, es, k)|, Calls(p, es, n);
      && j < |all| && all[j] == RateLimiter.Call(es[k].r.ip, es[k].now)
      && (RateLimiter.Granted(p.rate, all, j)
          <==> RateLimiter.Acquire(p.rate, GuardsAt(p, es, k).buckets, es[k].r.ip, es[k].now).1)
  {
    var j, all := |Calls(p, es, k)|, Calls(p, es, n);
    CallsGrow(p, es, k + 1, n);
    CallsGrow(p, es, k, n);
    assert Calls(p, es, k + 1) == Calls(p, es, k) + [RateLimiter.Call(es[k].r.ip, es[k].now)];
    assert all[..j + 1][j] == all[j];
    BucketsFollowCalls(p, es, k);
    StatePrefix(p.rate, Calls(p, es, k), all, j);
  }

  /** Every admitted request was granted by the limiter: the k-th event as a call in the limiter's run. */
  lemma AdmittedWasGranted(p: Policies, es: seq<Event>, ip: string, k: nat, n: nat)
    requires k < n <= |es| && Admits(p, es, ip, k)
    ensures var j, all := |Calls(p, es, k)|, Calls(p, es, n);
      j < |all| && all[j] == RateLimiter.Call(ip, es[k].now) && RateLimiter.Granted(p.rate, all, j)
  {
    ReachesLimiter(p, es, k, n);
  }

  /** Event k adds to what the limiter picked if the request is admitted. */
  lemma PickedStep(
      p: Policies, es: seq<Event>, ip: string, k: nat, n: nat, all: seq<RateLimiter.Event>, sel: seq<bool>, a: nat)
    requires k < n <= |es| && all == Calls(p, es, n) && sel == RateLimiter.Decisions(p.rate, all)
    requires a <= |Calls(p, es, k)|
    ensures |Calls(p, es, k)| <= |Calls(p, es, k + 1)| <= |all|
    ensures RateLimiter.Picked(all, sel, ip, a, |Calls(p, es, k + 1)|)
         >= RateLimiter.Picked(all, sel, ip, a, |Calls(p, es, k)|) + if Admits(p, es, ip, k) then 1 else 0
  {
    CallsGrow(p, es, k, k + 1);
    CallsGrow(p, es, k + 1, n);
    if Admits(p, es, ip, k) {
      AdmittedWasGranted(p, es, ip, k, n);
    }
    PickedNext(all, sel, ip, a, |Calls(p, es, k)|, |Calls(p, es, k + 1)|);
  }

  lemma {:induction false} AdmittedAtMostPicked(
      p: Policies, es: seq<Event>, ip: string, i: nat, k: nat, n: nat, all: seq<RateLimiter.Event>, sel: seq<bool>)
    requires i <= k <= n <= |es| && all == Calls(p, es, n) && sel == RateLimiter.Decisions(p.rate, all)
    ensures |Calls(p, es, i)| <= |Calls(p, es, k)| <= |all|
    ensures Admitted(p, es, ip, i, k) <= RateLimiter.Picked(all, sel, ip, |Calls(p, es, i)|, |Calls(p, es, k)|)
    decreases k
  {
    if i < k {
      AdmittedAtMostPicked(p, es, ip, i, k - 1, n, all, sel);
      PickedStep(p, es, ip, k - 1, n, all, sel, |Calls(p, es, i)|);
    } else {
      CallsGrow(p, es, k, n);
    }
  }

  lemma PickedNext(
      cs: seq<RateLimiter.Event>, sel: seq<bool>, ip: string, a: nat, j: nat, k: nat)
    requires a <= j <= k <= j + 1 && k <= |cs| == |sel|
    ensures RateLimiter.Picked(cs, sel, ip, a, k) == RateLimiter.Picked(cs, sel, ip, a, j)
      + if j < k && RateLimiter.IsCall(cs, ip, j) && sel[j] then 1 else 0
  {
  }

  /**
   The rate bound on what check_request lets in: between any request of an IP that reaches the limiter
   and any later admitted one, the admitted requests of that IP keep to the burst plus the refill.
   */
  lemma AdmissionRate(p: Policies, es: seq<Event>, ip: string, i: nat, k: nat)
    requires i <= k < |es| && Monotone(es) && p.rate.enabled && ip != ""
    requires es[i].Checked? && es[i].r.ip == ip && Known(p, es[i].r) && Admits(p, es, ip, k)
    ensures (Admitted(p, es, ip, i, k) + 1) * 1_000_000_000
         <= p.rate.burstSize * 1_000_000_000 + p.rate.requestsPerSecond * (es[k].now - es[i].now)
  {
    var all := Calls(p, es, k + 1);
    AdmittedAtMostPicked(p, es, ip, i, k, k + 1, all, RateLimiter.Decisions(p.rate, all));
    CallsWindow(p, es, ip, i, k, all, |Calls(p, es, i)|, |Calls(p, es, k)|);
    RateLimiter.WindowBound(p.rate, all, ip, |Calls(p, es, i)|, |Calls(p, es, k)|, Admitted(p, es, ip, i, k));
  }

  /** From any request of the IP that reaches the limiter to an admitted one there is a window of the limiter's run. */
  lemma CallsWindow(
      p: Policies, es: seq<Event>, ip: string, i: nat, k: nat, all: seq<RateLimiter.Event>, a: nat, b: nat)
    requires i <= k < |es| && Monotone(es) && all == Calls(p, es, k + 1)
    requires es[i].Checked? && es[i].r.ip == ip && Known(p, es[i].r) && Admits(p, es, ip, k)
    requires a == |Calls(p, es, i)| && b == |Calls(p, es, k)|
    ensures a <= b < |all| && RateLimiter.Monotone(all) && RateLimiter.Granted(p.rate, all, b)
    ensures RateLimiter.Window(all, ip, a, b) && all[a].now == es[i].now && all[b].now == es[k].now
  {
    CallsGrow(p, es, i, k);
    AdmittedWasGranted(p, es, ip, k, k + 1);
    CallsMonotone(p, es, k + 1);
    WindowStart(p, es, i, k + 1);
    forall j | a <= j < b ensures all[j] != RateLimiter.Forget(ip) {
      assert all[j] in all;
    }
  }

  lemma WindowStart(p: Policies, es: seq<Event>, i: nat, n: nat)
    requires i < n <= |es| && es[i].Checked? && Known(p, es[i].r)
    ensures var a, all := |Calls(p, es, i)|, Calls(p, es, n);
      a < |all| && all[a] == RateLimiter.Call(es[i].r.ip, es[i].now)
  {
    var a, all := |Calls(p, es, i)|, Calls(p, es, n);
    CallsGrow(p, es, i + 1, n);
    assert Calls(p, es, i + 1)[a] == RateLimiter.Call(es[i].r.ip, es[i].now);
    assert all[..a + 1][a] == all[a];
  }

  // ---- The breaker's view of a run ----

  /** What the breaker of one IP sees among events i..k-1. */
  function Seen(p: Policies, es: seq<Event>, ip: string, i: nat, k: nat): seq<CircuitBreaker.Event>
    requires i <= k <= |es|
  {
    if i == k then [] else Seen(p, es, ip, i, k - 1) + SeenAt(p, es, ip, k - 1)
  }

  /** A request reaches the breaker when the limiter has granted it. */
  function SeenAt(p: Policies, es: seq<Event>, ip: string, k: nat): seq<CircuitBreaker.Event>
    requires k < |es|
  {
    match es[k]
    case Checked(r, now) =>
      if r.ip == ip && Known(p, r) && RateLimiter.Acquire(p.rate, GuardsAt(p, es, k).buckets, ip, now).1
      then [CircuitBreaker.Ask(now)] else []
    case Reported(of, isError, now) =>
      if of != ip then [] else if isError then [CircuitBreaker.Failure(now)] else [CircuitBreaker.Success]
  }

  function BreakerAt(p: Policies, es: seq<Event>, ip: string, k: nat): CircuitBreaker.CircuitState
    requires k <= |es|
  {
    CircuitBreaker.Lookup(GuardsAt(p, es, k).states, ip)
  }

  /** One event of the run is at most one event of the breaker, and admits exactly when the breaker does. */
  ghost predicate Mirrors(
      cfg: CircuitBreaker.CircuitBreakerConfig, s: CircuitBreaker.CircuitState, t: CircuitBreaker.CircuitState,
      seen: seq<CircuitBreaker.Event>, admits: bool)
  {
    if seen == [] then t == s && !admits
    else |seen| == 1 && t == CircuitBreaker.Step(cfg, s, seen[0]) && admits == CircuitBreaker.Admits(cfg, s, seen[0])
  }

  lemma OneEvent(p: Policies, es: seq<Event>, ip: string, k: nat)
    requires k < |es| && p.breaker.enabled && ip != ""
    ensures Mirrors(p.breaker, BreakerAt(p, es, ip, k), BreakerAt(p, es, ip, k + 1), SeenAt(p, es, ip, k),
                    Admits(p, es, ip, k))
  {
  }

  lemma {:induction false} BreakerFollows(p: Policies, es: seq<Event>, ip: string, i: nat, k: nat)
    requires i <= k <= |es| && p.breaker.enabled && ip != ""
    ensures Follows(p.breaker, BreakerAt(p, es, ip, i), Seen(p, es, ip, i, k), BreakerAt(p, es, ip, k), Admitted(p, es, ip, i, k))
    decreases k
  {
    if i < k {
      BreakerFollows(p, es, ip, i, k - 1);
      OneEvent(p, es, ip, k - 1);
      Extend(p.breaker, BreakerAt(p, es, ip, i), Seen(p, es, ip, i, k - 1), SeenAt(p, es, ip, k - 1),
             BreakerAt(p, es, ip, k - 1), BreakerAt(p, es, ip, k), Admitted(p, es, ip, i, k - 1), Admits(p, es, ip, k - 1));
    }
  }

  /** From `start`, these events lead to `s` and let `admitted` requests in. */
  ghost predicate Follows(
      cfg: CircuitBreaker.CircuitBreakerConfig, start: CircuitBreaker.CircuitState,
      es: seq<CircuitBreaker.Event>, s: CircuitBreaker.CircuitState, admitted: nat)
  {
    s == CircuitBreaker.StateAt(cfg, start, es, |es|) && admitted == CircuitBreaker.Admitted(cfg, start, es, |es|)
  }

  lemma Extend(
      cfg: CircuitBreaker.CircuitBreakerConfig, start: CircuitBreaker.CircuitState,
      es: seq<CircuitBreaker.Event>, more: seq<CircuitBreaker.Event>,
      s: CircuitBreaker.CircuitState, t: CircuitBreaker.CircuitState, admitted: nat, admits: bool)
    requires Follows(cfg, start, es, s, admitted) && Mirrors(cfg, s, t, more, admits)
    ensures Follows(cfg, start, es + more, t, admitted + if admits then 1 else 0)
  {
    if more == [] {
      assert es + more == es;
    } else {
      CircuitBreaker.StateAtExtend(cfg, start, es, more, |es|);
      assert (es + more)[|es|] == more[0];
    }
  }

  lemma StaysOpen(
      cfg: CircuitBreaker.CircuitBreakerConfig, start: CircuitBreaker.CircuitState,
      es: seq<CircuitBreaker.Event>, more: seq<CircuitBreaker.Event>)
    requires |more| <= 1 && CircuitBreaker.NeverClosed(cfg, start, es)
    requires CircuitBreaker.StateAt(cfg, start, es + more, |es + more|).state != CircuitBreaker.Closed
    ensures CircuitBreaker.NeverClosed(cfg, start, es + more)
  {
    forall j: nat | j <= |es + more| ensures CircuitBreaker.StateAt(cfg, start, es + more, j).state != CircuitBreaker.Closed {
      if j <= |es| {
        CircuitBreaker.StateAtExtend(cfg, start, es, more, j);
      }
    }
  }

  /** The breaker of the IP stays open or half-open from event i to event k. */
  ghost predicate Tripped(p: Policies, es: seq<Event>, ip: string, i: nat, k: nat)
    requires i <= k <= |es|
  {
    forall j: nat | i <= j <= k :: BreakerAt(p, es, ip, j).state != CircuitBreaker.Closed
  }

  lemma {:induction false} SeenNeverClosed(p: Policies, es: seq<Event>, ip: string, i: nat, k: nat)
    requires i <= k <= |es| && p.breaker.enabled && ip != "" && Tripped(p, es, ip, i, k)
    ensures CircuitBreaker.NeverClosed(p.breaker, BreakerAt(p, es, ip, i), Seen(p, es, ip, i, k))
    decreases k
  {
    if i < k {
      SeenNeverClosed(p, es, ip, i, k - 1);
      BreakerFollows(p, es, ip, i, k);
      OneEvent(p, es, ip, k - 1);
      StaysOpen(p.breaker, BreakerAt(p, es, ip, i), Seen(p, es, ip, i, k - 1), SeenAt(p, es, ip, k - 1));
    }
  }

  lemma {:induction false} ClockExtend(es: seq<CircuitBreaker.Event>, more: seq<CircuitBreaker.Event>, start: int, k: nat)
    requires k <= |es|
    ensures CircuitBreaker.Clock(es + more, start, k) == CircuitBreaker.Clock(es, start, k)
  {
    if k > 0 {
      ClockExtend(es, more, start, k - 1);
    }
  }

  lemma StillInOrderAt(es: seq<CircuitBreaker.Event>, e: CircuitBreaker.Event, start: int, j: nat)
    requires j < |es| && CircuitBreaker.InOrderAt(es, start, j)
    ensures CircuitBreaker.InOrderAt(es + [e], start, j)
  {
    ClockExtend(es, [e], start, j);
  }

  lemma LastInOrder(es: seq<CircuitBreaker.Event>, e: CircuitBreaker.Event, start: int, now: int)
    requires CircuitBreaker.Clock(es, start, |es|) <= now && CircuitBreaker.TimeOf(e, now) == now
    ensures CircuitBreaker.InOrderAt(es + [e], start, |es|) && CircuitBreaker.Clock(es + [e], start, |es| + 1) <= now
  {
    ClockExtend(es, [e], start, |es|);
  }

  lemma OrderExtend(es: seq<CircuitBreaker.Event>, e: CircuitBreaker.Event, start: int, now: int)
    requires CircuitBreaker.ClockNeverGoesBack(es, start) && CircuitBreaker.Clock(es, start, |es|) <= now
    requires CircuitBreaker.TimeOf(e, now) == now
    ensures CircuitBreaker.ClockNeverGoesBack(es + [e], start)
    ensures CircuitBreaker.Clock(es + [e], start, |es + [e]|) <= now
  {
    LastInOrder(es, e, start, now);
    forall j: nat | j < |es + [e]| ensures CircuitBreaker.InOrderAt(es + [e], start, j) {
      if j < |es| {
        StillInOrderAt(es, e, start, j);
      }
    }
  }

  lemma {:induction false} SeenInOrder(p: Policies, es: seq<Event>, ip: string, i: nat, k: nat, start: int)
    requires i <= k <= |es| && Monotone(es)
    requires forall j | i <= j < k :: start <= es[j].now
    ensures var seen := Seen(p, es, ip, i, k);
      && CircuitBreaker.ClockNeverGoesBack(seen, start)
      && CircuitBreaker.Clock(seen, start, |seen|) <= (if i < k then es[k - 1].now else start)
    decreases k
  {
    if i < k {
      SeenInOrder(p, es, ip, i, k - 1, start);
      var before, now := Seen(p, es, ip, i, k - 1), SeenAt(p, es, ip, k - 1);
      if now == [] {
        assert before + now == before;
      } else {
        OrderExtend(before, now[0], start, es[k - 1].now);
        assert now == [now[0]];
      }
    }
  }

  /** A breaker that is not closed opened at the time of some event. */
  lemma {:induction false} OpenedBefore(p: Policies, es: seq<Event>, ip: string, k: nat)
    requires k <= |es| && Monotone(es) && p.breaker.enabled && ip != ""
    ensures var s := BreakerAt(p, es, ip, k);
      s.state != CircuitBreaker.Closed ==> k > 0 && s.openTime <= es[k - 1].now
  {
    if k > 0 {
      OpenedBefore(p, es, ip, k - 1);
      OneEvent(p, es, ip, k - 1);
      TimesSeen(p, es, ip, k - 1);
    }
  }

  lemma TimesSeen(p: Policies, es: seq<Event>, ip: string, k: nat)
    requires k < |es|
    ensures forall e | e in SeenAt(p, es, ip, k) :: CircuitBreaker.TimeOf(e, es[k].now) == es[k].now && !e.Clear?
  {
  }

  /**
   The throughput bound on what check_request lets in: from the moment the breaker of an IP opens, as
   long as it does not close again, at most (whole timeouts elapsed) * (probe limit) of its requests.
   */
  lemma AdmissionThroughput(p: Policies, es: seq<Event>, ip: string, i: nat, k: nat, span: nat)
    requires i <= k <= |es| && Monotone(es) && p.breaker.enabled && ip != "" && p.breaker.timeoutSeconds > 0
    requires BreakerAt(p, es, ip, i).state == CircuitBreaker.Open && Tripped(p, es, ip, i, k)
    requires i < k ==> es[k - 1].now <= BreakerAt(p, es, ip, i).openTime + span
    ensures Admitted(p, es, ip, i, k) <= span / p.breaker.TimeoutNs() * p.breaker.Probes()
  {
    var start, seen := BreakerAt(p, es, ip, i), Seen(p, es, ip, i, k);
    OpenedBefore(p, es, ip, i);
    BreakerFollows(p, es, ip, i, k);
    SeenNeverClosed(p, es, ip, i, k);
    SeenInOrder(p, es, ip, i, k, start.openTime);
    ProbesBounded(p, es, ip, i);
    CircuitBreaker.ThroughputBound(p.breaker, start, seen, span);
  }

  lemma ProbesBounded(p: Policies, es: seq<Event>, ip: string, k: nat)
    requires k <= |es| && p.breaker.enabled && ip != ""
    ensures BreakerAt(p, es, ip, k).halfOpenReqs <= p.breaker.Probes()
  {
    var past := Seen(p, es, ip, 0, k);
    BreakerFollows(p, es, ip, 0, k);
    CircuitBreaker.CountersStayBounded(p.breaker, past, |past|);
  }

  // ---- Where the probes of an episode go ----

  /** The breaker of the IP is half-open from event i to event k. */
  ghost predicate Probing(p: Policies, es: seq<Event>, ip: string, i: nat, k: nat)
    requires i <= k <= |es|
  {
    forall j: nat | i <= j <= k :: BreakerAt(p, es, ip, j).state == CircuitBreaker.HalfOpen
  }

  /**
   In any run a probe is spent exactly when a request is admitted: a request that the filter, the key
   check or the limiter refuses costs none. So within an episode exactly as many requests get in as the
   breaker has probes left at its start less those left at its end.
   */
  lemma {:induction false} ProbesAreAdmissions(p: Policies, es: seq<Event>, ip: string, i: nat, k: nat)
    requires i <= k <= |es| && p.breaker.enabled && ip != "" && Probing(p, es, ip, i, k)
    ensures BreakerAt(p, es, ip, k).halfOpenReqs == BreakerAt(p, es, ip, i).halfOpenReqs + Admitted(p, es, ip, i, k)
    ensures BreakerAt(p, es, ip, k).halfOpenReqs <= p.breaker.Probes()
    decreases k
  {
    if i < k {
      ProbesAreAdmissions(p, es, ip, i, k - 1);
      OneEvent(p, es, ip, k - 1);
      TimesSeen(p, es, ip, k - 1);
      ProbeStep(p.breaker, BreakerAt(p, es, ip, k - 1), BreakerAt(p, es, ip, k), SeenAt(p, es, ip, k - 1),
                Admits(p, es, ip, k - 1));
    }
    ProbesBounded(p, es, ip, k);
  }

  lemma ProbeStep(
      cfg: CircuitBreaker.CircuitBreakerConfig, s: CircuitBreaker.CircuitState, t: CircuitBreaker.CircuitState,
      seen: seq<CircuitBreaker.Event>, admits: bool)
    requires Mirrors(cfg, s, t, seen, admits) && forall e | e in seen :: !e.Clear?
    requires s.state == CircuitBreaker.HalfOpen && t.state == CircuitBreaker.HalfOpen
    ensures t.halfOpenReqs == s.halfOpenReqs + if admits then 1 else 0
  {
    if seen != [] {
      assert seen[0] in seen;
    }
  }

  /** A breaker that is off keeps no state, and an unknown IP never gets any, whatever is asked and reported. */
  lemma {:induction false} UnwatchedKeepNoState(p: Policies, es: seq<Event>, k: nat)
    requires k <= |es|
    ensures "" !in GuardsAt(p, es, k).states && "" !in GuardsAt(p, es, k).buckets
    ensures !p.breaker.enabled ==> GuardsAt(p, es, k).states == map[]
    ensures !p.rate.enabled ==> GuardsAt(p, es, k).buckets == map[]
  {
    if k > 0 {
      UnwatchedKeepNoState(p, es, k - 1);
    }
  }

  // ---- The verdict, without asking the guards ----

  /** The limiter has room for the request of event k: it is off, the IP is unknown, or every window fits. */
  ghost predicate RateFits(p: Policies, es: seq<Event>, k: nat)
    requires k < |es| && es[k].Checked? && Known(p, es[k].r)
  {
    var all, j := Calls(p, es, k + 1), |Calls(p, es, k)|;
    ReachesLimiter(p, es, k, k + 1);
    !p.rate.enabled || es[k].r.ip == "" || RateLimiter.Fits(p.rate, all, RateLimiter.Decisions(p.rate, all), es[k].r.ip, j)
  }

  /** The breaker lets the request of event k pass: it is off, the IP is unknown, or its state says so. */
  predicate BreakerPasses(p: Policies, s: CircuitBreaker.CircuitState, ip: string, now: int) {
    !p.breaker.enabled || ip == ""
    || match s.state
       case Closed => true
       case Open => now - s.openTime >= p.breaker.timeoutSeconds * 1_000_000_000
       case HalfOpen => s.halfOpenReqs < p.breaker.halfOpenMaxReqs
  }

  lemma BreakerAnswers(p: Policies, s: CircuitBreaker.CircuitState, ip: string, now: int)
    requires s.state == CircuitBreaker.Closed || s.openTime <= now
    ensures BreakerPasses(p, s, ip, now)
       <==> CircuitBreaker.Exempt(p.breaker, ip) || CircuitBreaker.Allow(p.breaker, s, now).1
  {
    if s.state == CircuitBreaker.Open {
      CircuitBreaker.OpenIgnoresOutcomes(p.breaker, s, CircuitBreaker.Ask(now));
    }
  }

  /**
   The verdict of every request of every run, from the configured policy, the keys, the windows of the
   requests that reached the limiter and the state of the breaker. With limiter and breaker off it is
   settled by policy and key alone.
   */
  lemma VerdictInRuns(p: Policies, cfg: Filter.IpFilterConfig, es: seq<Event>, k: nat)
    requires Filter.CompiledFrom(p.filter, cfg) && Monotone(es) && k < |es| && es[k].Checked?
    ensures var (r, now) := (es[k].r, es[k].now);
      var verdict := Check(p, GuardsAt(p, es, k), r, now).1;
      verdict == (if !Filter.Policy(cfg, r.address) then Forbidden
                  else if p.keys.Some? && r.key !in p.keys.value then Unauthorized
                  else if Known(p, r) && !RateFits(p, es, k) then TooManyRequests
                  else if !BreakerPasses(p, BreakerAt(p, es, r.ip, k), r.ip, now) then ServiceUnavailable
                  else OK)
    ensures Filter.Policy(cfg, es[k].r.address) && (p.keys.None? || es[k].r.key in p.keys.value) ==> Known(p, es[k].r)
    ensures !p.rate.enabled && !p.breaker.enabled ==>
      Check(p, GuardsAt(p, es, k), es[k].r, es[k].now)
      == (GuardsAt(p, es, k),
          if !Filter.Policy(cfg, es[k].r.address) then Forbidden
          else if p.keys.None? || es[k].r.key in p.keys.value then OK
          else Unauthorized)
  {
    var r, now := es[k].r, es[k].now;
    FirstObjectionDecides(p, cfg, GuardsAt(p, es, k), r, now);
    Filter.FilterMeetsPolicy(cfg, p.filter, r.address);
    if Known(p, r) {
      ReachesLimiter(p, es, k, k + 1);
      CallsMonotone(p, es, k + 1);
      RateLimiter.GrantedExactly(p.rate, Calls(p, es, k + 1), |Calls(p, es, k)|);
    }
    if p.breaker.enabled && r.ip != "" {
      OpenedBefore(p, es, r.ip, k);
      BreakerAnswers(p, BreakerAt(p, es, r.ip, k), r.ip, now);
    }
  }
}
