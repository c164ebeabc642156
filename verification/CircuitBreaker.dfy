/** The per-IP circuit breaker: a timed machine with three states whose outcomes may arrive late. */
module CircuitBreaker {
  import opened Prelude

  const NS_PER_SECOND: nat := 1_000_000_000

  datatype CbState = Closed | Open | HalfOpen

  datatype CircuitBreakerConfig = CircuitBreakerConfig(
    enabled: bool, failureThreshold: nat, successThreshold: nat, timeoutSeconds: nat, halfOpenMaxReqs: nat)
  {
    /** A threshold or probe limit of zero acts like one. */
    function Trip(): nat { Max(1, failureThreshold) }
    function Recover(): nat { Max(1, successThreshold) }
    function Probes(): nat { Max(1, halfOpenMaxReqs) }
    function TimeoutNs(): nat { timeoutSeconds * NS_PER_SECOND }
  }

  datatype CircuitState = CircuitState(
    state: CbState, failureCount: nat, successCount: nat, halfOpenReqs: nat, openTime: int)

  const FRESH := CircuitState(Closed, 0, 0, 0, 0)

  type States = map<string, CircuitState>

  function Lookup(states: States, ip: string): CircuitState {
    if ip in states then states[ip] else FRESH
  }

  predicate Exempt(cfg: CircuitBreakerConfig, ip: string) {
    !cfg.enabled || ip == ""
  }

  // ---- One call for one IP, on values ----

  /** Whole seconds, as duration_cast truncates them. */
  function Seconds(ns: int): int {
    if ns >= 0 then ns / NS_PER_SECOND else -(-ns / NS_PER_SECOND)
  }

  function Allow(cfg: CircuitBreakerConfig, s: CircuitState, now: int): (CircuitState, bool) {
    match s.state
    case Closed => (s, true)
    case Open =>
      if Seconds(now - s.openTime) >= cfg.timeoutSeconds
      then (s.(state := HalfOpen, successCount := 0, halfOpenReqs := 1), true)
      else (s, false)
    case HalfOpen =>
      if s.halfOpenReqs < cfg.halfOpenMaxReqs
      then (s.(halfOpenReqs := s.halfOpenReqs + 1), true)
      else (s, false)
  }

  function Succeed(cfg: CircuitBreakerConfig, s: CircuitState): CircuitState {
    match s.state
    case Closed => s.(failureCount := 0)
    case Open => s
    case HalfOpen =>
      if s.successCount + 1 >= cfg.successThreshold then FRESH else s.(successCount := s.successCount + 1)
  }

  function Fail(cfg: CircuitBreakerConfig, s: CircuitState, now: int): CircuitState {
    match s.state
    case Closed =>
      if s.failureCount + 1 >= cfg.failureThreshold
      then s.(failureCount := s.failureCount + 1, state := Open, openTime := now)
      else s.(failureCount := s.failureCount + 1)
    case Open => s
    case HalfOpen => s.(state := Open, openTime := now, successCount := 0, halfOpenReqs := 0)
  }

  // ---- The object the source updates in place ----

  class PerIpCircuitBreaker {
    const cfg: CircuitBreakerConfig
    var states: States

    constructor (cfg: CircuitBreakerConfig)
      ensures this.cfg == cfg && states == map[]
    {
      this.cfg := cfg;
      states := map[];
    }

    method AllowRequest(ip: string, now: int) returns (allowed: bool)
      modifies this
      ensures !cfg.enabled || ip == "" ==> allowed && states == old(states)
      ensures cfg.enabled && ip != "" ==>
        && allowed == Allow(cfg, Lookup(old(states), ip), now).1
        && states == old(states)[ip := Allow(cfg, Lookup(old(states), ip), now).0]
    {
      if !cfg.enabled || ip == "" {
        return true;
      }
      GetOrCreate(ip);
      var s := states[ip];
      match s.state {
        case Closed =>
          return true;
        case Open =>
          var elapsed := Seconds(now - s.openTime);
          if elapsed >= cfg.timeoutSeconds {
            states := states[ip := s.(state := HalfOpen, successCount := 0, halfOpenReqs := 1)];
            return true;
          }
          return false;
        case HalfOpen =>
          if s.halfOpenReqs < cfg.halfOpenMaxReqs {
            states := states[ip := s.(halfOpenReqs := s.halfOpenReqs + 1)];
            return true;
          }
          return false;
      }
    }

    method RecordSuccess(ip: string)
      modifies this
      ensures !cfg.enabled || ip == "" ==> states == old(states)
      ensures cfg.enabled && ip != "" ==> states == old(states)[ip := Succeed(cfg, Lookup(old(states), ip))]
    {
      if !cfg.enabled || ip == "" {
        return;
      }
      GetOrCreate(ip);
      var s := states[ip];
      if s.state == Closed {
        states := states[ip := s.(failureCount := 0)];
      } else if s.state == HalfOpen {
        s := s.(successCount := s.successCount + 1);
        states := states[ip := s];
        if s.successCount >= cfg.successThreshold {
          states := states[ip := FRESH];
        }
      }
    }

    method RecordFailure(ip: string, now: int)
      modifies this
      ensures !cfg.enabled || ip == "" ==> states == old(states)
      ensures cfg.enabled && ip != "" ==> states == old(states)[ip := Fail(cfg, Lookup(old(states), ip), now)]
    {
      if !cfg.enabled || ip == "" {
        return;
      }
      GetOrCreate(ip);
      var s := states[ip];
      if s.state == Closed {
        s := s.(failureCount := s.failureCount + 1);
        states := states[ip := s];
        if s.failureCount >= cfg.failureThreshold {
          states := states[ip := s.(state := Open, openTime := now)];
        }
      } else if s.state == HalfOpen {
        states := states[ip := s.(state := Open, openTime := now, successCount := 0, halfOpenReqs := 0)];
      }
    }

    method Reset(ip: string)
      modifies this
      ensures states == old(states) - {ip}
    {
      states := states - {ip};
    }

    method GetState(ip: string) returns (state: CbState)
      ensures state == Lookup(states, ip).state
    {
      state := if ip in states then states[ip].state else Closed;
    }

    method GetOrCreate(ip: string)
      modifies this
      ensures states == old(states)[ip := Lookup(old(states), ip)]
    {
      if ip !in states {
        states := states[ip := FRESH];
      }
    }
  }

  // ---- Runs of one IP ----

  /** Ask: a request arrives. Success, Failure: the outcome of some earlier request. Clear: reset. */
  datatype Event = Ask(now: int) | Success | Failure(now: int) | Clear

  function Step(cfg: CircuitBreakerConfig, s: CircuitState, e: Event): CircuitState {
    match e
    case Ask(now) => Allow(cfg, s, now).0
    case Success => Succeed(cfg, s)
    case Failure(now) => Fail(cfg, s, now)
    case Clear => FRESH
  }

  predicate Admits(cfg: CircuitBreakerConfig, s: CircuitState, e: Event) {
    e.Ask? && Allow(cfg, s, e.now).1
  }

  /** The state after the first k events of a run that starts in `start`. */
  function StateAt(cfg: CircuitBreakerConfig, start: CircuitState, es: seq<Event>, k: nat): CircuitState
    requires k <= |es|
  {
    if k == 0 then start else Step(cfg, StateAt(cfg, start, es, k - 1), es[k - 1])
  }

  /** How many of the first k events are admitted requests. */
  function Admitted(cfg: CircuitBreakerConfig, start: CircuitState, es: seq<Event>, k: nat): nat
    requires k <= |es|
  {
    if k == 0 then 0
    else
      var now := if Admits(cfg, StateAt(cfg, start, es, k - 1), es[k - 1]) then 1 else 0;
      Admitted(cfg, start, es, k - 1) + now
  }

  // ---- What the failure counter means ----

  function Failures(es: seq<Event>, i: nat, k: nat): nat
    requires i <= k <= |es|
  {
    if i == k then 0 else Failures(es, i, k - 1) + if es[k - 1].Failure? then 1 else 0
  }

  /** The later of the last success (or reset) and the last moment the breaker was not closed. */
  function Mark(cfg: CircuitBreakerConfig, es: seq<Event>, k: nat): (m: nat)
    requires k <= |es|
    ensures m <= k
  {
    if k == 0 then 0
    else if es[k - 1].Success? || es[k - 1].Clear? || StateAt(cfg, FRESH, es, k - 1).state != Closed then k
    else Mark(cfg, es, k - 1)
  }

  lemma {:induction false} ClosedCountsFailures(cfg: CircuitBreakerConfig, es: seq<Event>, k: nat)
    requires k <= |es|
    ensures var s := StateAt(cfg, FRESH, es, k);
      s.state == Closed ==> s.failureCount == Failures(es, Mark(cfg, es, k), k) < cfg.Trip()
  {
    if k > 0 {
      ClosedCountsFailures(cfg, es, k - 1);
    }
  }

  /**
   A closed breaker opens exactly on the failure that completes a streak of the threshold length,
   counted from the last success or the last entry to CLOSED; nothing else opens it.
   */
  lemma TripsExactlyAtThreshold(cfg: CircuitBreakerConfig, es: seq<Event>, k: nat)
    requires k < |es| && StateAt(cfg, FRESH, es, k).state == Closed
    ensures StateAt(cfg, FRESH, es, k + 1).state != Closed
       <==> es[k].Failure? && Failures(es, Mark(cfg, es, k), k) + 1 == cfg.Trip()
    ensures StateAt(cfg, FRESH, es, k + 1).state != Closed
        ==> StateAt(cfg, FRESH, es, k + 1).state == Open && StateAt(cfg, FRESH, es, k + 1).openTime == es[k].now
  {
    ClosedCountsFailures(cfg, es, k);
  }

  // ---- What the half-open counters mean ----

  function Successes(es: seq<Event>, i: nat, k: nat): nat
    requires i <= k <= |es|
  {
    if i == k then 0 else Successes(es, i, k - 1) + if es[k - 1].Success? then 1 else 0
  }

  /** Where the current half-open episode begins: the first state of it, just after the request that started it. */
  function Entry(cfg: CircuitBreakerConfig, es: seq<Event>, k: nat): (m: nat)
    requires k <= |es|
    ensures m <= k
  {
    if k == 0 || StateAt(cfg, FRESH, es, k - 1).state != HalfOpen then k else Entry(cfg, es, k - 1)
  }

  /**
   In a half-open episode the counters are the successes reported and the requests let in since it
   began, the one that began it included.
   */
  lemma {:induction false} HalfOpenCountsEpisode(cfg: CircuitBreakerConfig, es: seq<Event>, k: nat)
    requires k <= |es|
    ensures var s, m := StateAt(cfg, FRESH, es, k), Entry(cfg, es, k);
      s.state == HalfOpen ==>
        && m >= 1 && s.successCount == Successes(es, m, k) < cfg.Recover()
        && s.halfOpenReqs == 1 + Admitted(cfg, FRESH, es, k) - Admitted(cfg, FRESH, es, m) <= cfg.Probes()
        && Admits(cfg, StateAt(cfg, FRESH, es, m - 1), es[m - 1])
  {
    if k > 0 {
      HalfOpenCountsEpisode(cfg, es, k - 1);
    }
  }

  /**
   A half-open episode ends in CLOSED exactly on the success that completes the success threshold (or a
   reset), in OPEN exactly on a failure, and it lets a request in exactly while probes are left.
   */
  lemma HalfOpenEndsExactly(cfg: CircuitBreakerConfig, es: seq<Event>, k: nat)
    requires k < |es| && StateAt(cfg, FRESH, es, k).state == HalfOpen
    ensures var s, t, m := StateAt(cfg, FRESH, es, k), StateAt(cfg, FRESH, es, k + 1), Entry(cfg, es, k);
      && (t.state == Closed <==> es[k].Clear? || (es[k].Success? && Successes(es, m, k) + 1 == cfg.Recover()))
      && (t.state == Open <==> es[k].Failure?)
      && (es[k].Ask? ==> (Admits(cfg, s, es[k])
            <==> 1 + Admitted(cfg, FRESH, es, k) - Admitted(cfg, FRESH, es, m) < cfg.halfOpenMaxReqs))
  {
    HalfOpenCountsEpisode(cfg, es, k);
  }

  /** While open, outcomes change nothing and a request is let in exactly once the timeout is over. */
  lemma OpenIgnoresOutcomes(cfg: CircuitBreakerConfig, s: CircuitState, e: Event)
    requires s.state == Open && !e.Clear?
    ensures !e.Ask? ==> Step(cfg, s, e) == s
    ensures e.Ask? && s.openTime <= e.now ==>
      && (Admits(cfg, s, e) <==> s.openTime + cfg.TimeoutNs() <= e.now)
      && (Admits(cfg, s, e) <==> Step(cfg, s, e).state == HalfOpen)
      && (!Admits(cfg, s, e) <==> Step(cfg, s, e) == s)
  {
    if e.Ask? && s.openTime <= e.now {
      SecondsReached(e.now - s.openTime, cfg.timeoutSeconds);
    }
  }

  /**
   The breaker's answer to every request of every run. Closed, it admits and does not change. Open, it
   admits exactly from the end of the timeout on. Half-open, it admits exactly while fewer requests than
   the probe limit have been let in since the episode began, the one that began it included.
   */
  lemma AdmitsExactly(cfg: CircuitBreakerConfig, es: seq<Event>, k: nat)
    requires k < |es| && es[k].Ask?
    ensures var s, t := StateAt(cfg, FRESH, es, k), StateAt(cfg, FRESH, es, k + 1);
      var admitted := Admitted(cfg, FRESH, es, k + 1) == Admitted(cfg, FRESH, es, k) + 1;
      var since := Admitted(cfg, FRESH, es, k) - Admitted(cfg, FRESH, es, Entry(cfg, es, k));
      && (s.state == Closed ==> admitted && t == s)
      && (s.state == Open && s.openTime <= es[k].now ==>
            (admitted <==> es[k].now - s.openTime >= cfg.timeoutSeconds * 1_000_000_000))
      && (s.state == HalfOpen ==> (admitted <==> 1 + since < cfg.halfOpenMaxReqs))
      && (!admitted ==> t == s)
  {
    var s := StateAt(cfg, FRESH, es, k);
    if s.state == Open && s.openTime <= es[k].now {
      OpenIgnoresOutcomes(cfg, s, es[k]);
    }
    if s.state == HalfOpen {
      HalfOpenEndsExactly(cfg, es, k);
    }
  }

  /** Truncating to seconds first does not change when the timeout is reached. */
  lemma SecondsReached(ns: nat, seconds: nat)
    ensures Seconds(ns) >= seconds <==> ns >= seconds * NS_PER_SECOND
  {
  }

  /** No counter outgrows its configured limit, so the 32-bit counters of the source cannot wrap. */
  ghost predicate Bounded(cfg: CircuitBreakerConfig, s: CircuitState) {
    && s.failureCount <= cfg.Trip()
    && (s.state == Closed ==> s.failureCount < cfg.Trip())
    && (s.state != HalfOpen ==> s.successCount == 0 && s.halfOpenReqs == 0)
    && s.successCount < cfg.Recover()
    && s.halfOpenReqs <= cfg.Probes()
    && (s.state == HalfOpen ==> s.halfOpenReqs >= 1)
  }

  lemma {:induction false} CountersStayBounded(cfg: CircuitBreakerConfig, es: seq<Event>, k: nat)
    requires k <= |es|
    ensures Bounded(cfg, StateAt(cfg, FRESH, es, k))
  {
    if k > 0 {
      CountersStayBounded(cfg, es, k - 1);
    }
  }

  // ---- Throughput after tripping ----

  function TimeOf(e: Event, before: int): int {
    if e.Ask? || e.Failure? then e.now else before
  }

  /** The last clock reading among the first k events, `start` if there is none. */
  function Clock(es: seq<Event>, start: int, k: nat): int
    requires k <= |es|
  {
    if k == 0 then start else TimeOf(es[k - 1], Clock(es, start, k - 1))
  }

  /** Event k does not turn the clock back. */
  predicate InOrderAt(es: seq<Event>, start: int, k: nat)
    requires k < |es|
  {
    Clock(es, start, k) <= TimeOf(es[k], Clock(es, start, k))
  }

  ghost predicate ClockNeverGoesBack(es: seq<Event>, start: int) {
    forall k: nat | k < |es| :: InOrderAt(es, start, k)
  }

  ghost predicate NeverClosed(cfg: CircuitBreakerConfig, start: CircuitState, es: seq<Event>) {
    forall k: nat | k <= |es| :: StateAt(cfg, start, es, k).state != Closed
  }

  /**
   Since time `since`, when it opened, `entries` half-open episodes have begun, each a full timeout after the breaker
   last opened, and `admitted` requests were let in.
   */
  ghost predicate Paced(
      cfg: CircuitBreakerConfig, since: int, s: CircuitState, clock: int, admitted: nat, entries: nat)
  {
    && s.halfOpenReqs <= cfg.Probes()
    && since + entries * cfg.TimeoutNs() <= clock
    && s.openTime <= clock
    && (s.state == Open ==>
          && since + entries * cfg.TimeoutNs() <= s.openTime
          && admitted <= entries * cfg.Probes())
    && (s.state == HalfOpen ==>
          && entries >= 1
          && admitted + cfg.Probes() <= entries * cfg.Probes() + s.halfOpenReqs)
  }

  lemma PacedStep(
      cfg: CircuitBreakerConfig, since: int, s: CircuitState, e: Event, clock: int, admitted: nat, entries: nat)
    returns (entries': nat)
    requires Paced(cfg, since, s, clock, admitted, entries) && clock <= TimeOf(e, clock)
    requires s.state != Closed && Step(cfg, s, e).state != Closed
    ensures Paced(cfg, since, Step(cfg, s, e), TimeOf(e, clock), admitted + (if Admits(cfg, s, e) then 1 else 0), entries')
  {
    entries' := if s.state == Open && Step(cfg, s, e).state == HalfOpen then entries + 1 else entries;
    if s.state == Open {
      OpenIgnoresOutcomes(cfg, s, e);
      assert (entries + 1) * cfg.TimeoutNs() == entries * cfg.TimeoutNs() + cfg.TimeoutNs();
      assert (entries + 1) * cfg.Probes() == entries * cfg.Probes() + cfg.Probes();
    }
  }

  lemma {:induction false} PacedAlways(cfg: CircuitBreakerConfig, start: CircuitState, es: seq<Event>, k: nat)
    returns (entries: nat)
    requires k <= |es| && start.state == Open && start.halfOpenReqs <= cfg.Probes()
    requires NeverClosed(cfg, start, es) && ClockNeverGoesBack(es, start.openTime)
    ensures Paced(cfg, start.openTime, StateAt(cfg, start, es, k), Clock(es, start.openTime, k),
                  Admitted(cfg, start, es, k), entries)
  {
    if k == 0 {
      entries := 0;
    } else {
      var before := PacedAlways(cfg, start, es, k - 1);
      assert InOrderAt(es, start.openTime, k - 1) && StateAt(cfg, start, es, k).state != Closed;
      entries := PacedStep(cfg, start.openTime, StateAt(cfg, start, es, k - 1), es[k - 1],
                           Clock(es, start.openTime, k - 1), Admitted(cfg, start, es, k - 1), before);
    }
  }

  /**
   The throughput bound: from the moment the breaker opens until it closes again, the requests let in
   within `span` nanoseconds number at most the whole timeouts in that span times the probe limit.
   */
  lemma ThroughputBound(cfg: CircuitBreakerConfig, start: CircuitState, es: seq<Event>, span: nat)
    requires start.state == Open && start.halfOpenReqs <= cfg.Probes() && cfg.timeoutSeconds > 0
    requires NeverClosed(cfg, start, es) && ClockNeverGoesBack(es, start.openTime)
    requires Clock(es, start.openTime, |es|) <= start.openTime + span
    ensures Admitted(cfg, start, es, |es|) <= span / cfg.TimeoutNs() * cfg.Probes()
  {
    var entries := PacedAlways(cfg, start, es, |es|);
    assert entries * cfg.TimeoutNs() <= span;
    WholeTimeouts(entries, cfg.TimeoutNs(), span);
    Scale(entries, span / cfg.TimeoutNs(), cfg.Probes());
    if StateAt(cfg, start, es, |es|).state == HalfOpen {
      assert StateAt(cfg, start, es, |es|).halfOpenReqs <= cfg.Probes();
    }
  }

  lemma WholeTimeouts(n: nat, unit: nat, span: nat)
    requires unit > 0 && n * unit <= span
    ensures n <= span / unit
  {
    var q := span / unit;
    assert span < (q + 1) * unit;
    if q < n {
      Scale(q + 1, n, unit);
      assert false;
    }
  }

  lemma Scale(a: nat, b: nat, c: nat)
    requires a <= b
    ensures a * c <= b * c
  {
  }

  // ---- Many IPs ----

  datatype IpEvent = IpEvent(ip: string, event: Event)

  /** One event against the whole table, as the methods above perform it. */
  function StepTable(cfg: CircuitBreakerConfig, states: States, e: IpEvent): States {
    if e.event.Clear? then states - {e.ip}
    else if Exempt(cfg, e.ip) then states
    else states[e.ip := Step(cfg, Lookup(states, e.ip), e.event)]
  }

  function TableAt(cfg: CircuitBreakerConfig, es: seq<IpEvent>, k: nat): States
    requires k <= |es|
  {
    if k == 0 then map[] else StepTable(cfg, TableAt(cfg, es, k - 1), es[k - 1])
  }

  /** The events of one IP among the first k. */
  function EventsOf(es: seq<IpEvent>, ip: string, k: nat): seq<Event>
    requires k <= |es|
  {
    if k == 0 then []
    else if es[k - 1].ip == ip then EventsOf(es, ip, k - 1) + [es[k - 1].event]
    else EventsOf(es, ip, k - 1)
  }

  lemma {:induction false} StateAtExtend(
      cfg: CircuitBreakerConfig, start: CircuitState, es: seq<Event>, more: seq<Event>, k: nat)
    requires k <= |es|
    ensures StateAt(cfg, start, es + more, k) == StateAt(cfg, start, es, k)
    ensures Admitted(cfg, start, es + more, k) == Admitted(cfg, start, es, k)
  {
    if k > 0 {
      StateAtExtend(cfg, start, es, more, k - 1);
    }
  }

  /** An IP's state depends on its own events alone. */
  lemma {:induction false} IpsAreIndependent(cfg: CircuitBreakerConfig, es: seq<IpEvent>, ip: string, k: nat)
    requires k <= |es| && cfg.enabled && ip != ""
    ensures var own := EventsOf(es, ip, k);
      Lookup(TableAt(cfg, es, k), ip) == StateAt(cfg, FRESH, own, |own|)
  {
    if k > 0 {
      IpsAreIndependent(cfg, es, ip, k - 1);
      if es[k - 1].ip == ip {
        var before := EventsOf(es, ip, k - 1);
        StateAtExtend(cfg, FRESH, before, [es[k - 1].event], |before|);
      }
    }
  }

  /** An IP the breaker does not watch has no entry, and a breaker that is off has none at all. */
  lemma {:induction false} ExemptLeavesNoTrace(cfg: CircuitBreakerConfig, es: seq<IpEvent>, k: nat)
    requires k <= |es|
    ensures "" !in TableAt(cfg, es, k)
    ensures !cfg.enabled ==> TableAt(cfg, es, k) == map[]
  {
    if k > 0 {
      ExemptLeavesNoTrace(cfg, es, k - 1);
    }
  }
}
