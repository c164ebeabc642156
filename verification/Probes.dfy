/**
 When can a half-open breaker keep refusing? Every admitted request is remembered, with the half-open
 episode it probes, until its outcome is reported; outcomes may come in any order or not at all.
 */
module Probes {
  import opened Prelude
  import opened CircuitBreaker

  /** What an admitted request was when it was let in. */
  datatype Ticket = Ordinary | Probe(episode: nat)

  datatype World = World(s: CircuitState, episode: nat, outstanding: multiset<Ticket>, clock: int)

  /** Time is counted from the start of the run. */
  const START := World(FRESH, 0, multiset{}, 0)

  datatype Move =
    | Arrive(now: int)
    | Report(ticket: Ticket, ok: bool, now: int)
    | Forget

  /** Only a request that was admitted and has not reported yet can report, and the clock never goes back. */
  predicate Possible(w: World, m: Move) {
    (m.Report? ==> m.ticket in w.outstanding) && (!m.Forget? ==> w.clock <= m.now)
  }

  function Do(cfg: CircuitBreakerConfig, w: World, m: Move): World
    requires Possible(w, m)
  {
    match m
    case Arrive(now) =>
      var (s, admitted) := Allow(cfg, w.s, now);
      var episode := if w.s.state == Open && s.state == HalfOpen then w.episode + 1 else w.episode;
      var ticket := if s.state == HalfOpen then Probe(episode) else Ordinary;
      World(s, episode, if admitted then w.outstanding + multiset{ticket} else w.outstanding, now)
    case Report(ticket, ok, now) =>
      w.(s := if ok then Succeed(cfg, w.s) else Fail(cfg, w.s, now),
         outstanding := w.outstanding - multiset{ticket}, clock := now)
    case Forget => w.(s := FRESH)
  }

  /** The worlds of a run that starts in `start`. */
  ghost predicate IsRunFrom(cfg: CircuitBreakerConfig, start: World, ws: seq<World>, ms: seq<Move>) {
    && |ws| == |ms| + 1 && ws[0] == start
    && forall i: nat | i < |ms| :: Possible(ws[i], ms[i]) && ws[i + 1] == Do(cfg, ws[i], ms[i])
  }

  ghost predicate IsRun(cfg: CircuitBreakerConfig, ws: seq<World>, ms: seq<Move>) {
    IsRunFrom(cfg, START, ws, ms)
  }

  ghost predicate Reachable(cfg: CircuitBreakerConfig, w: World) {
    exists ws: seq<World>, ms: seq<Move> :: IsRun(cfg, ws, ms) && ws[|ms|] == w
  }

  lemma Reach(cfg: CircuitBreakerConfig, w: World, m: Move, v: World)
    requires Reachable(cfg, w) && Possible(w, m) && v == Do(cfg, w, m)
    ensures Reachable(cfg, v)
  {
    var ws: seq<World>, ms: seq<Move> :| IsRun(cfg, ws, ms) && ws[|ms|] == w;
    var ws', ms' := ws + [v], ms + [m];
    forall i: nat | i < |ms'| ensures Possible(ws'[i], ms'[i]) && ws'[i + 1] == Do(cfg, ws'[i], ms'[i]) {
      if i < |ms| {
        assert ws'[i] == ws[i] && ms'[i] == ms[i] && ws'[i + 1] == ws[i + 1];
      }
    }
    assert IsRun(cfg, ws', ms') && ws'[|ms'|] == v;
  }

  // ---- The invariant ----

  /**
   The probes spent in the current episode are covered by the successes counted in it and the probes
   still out; successes of earlier episodes only add to the cover.
   */
  ghost predicate Covered(cfg: CircuitBreakerConfig, w: World) {
    && (forall t | t in w.outstanding :: t.Probe? ==> t.episode <= w.episode)
    && (w.s.state == HalfOpen ==>
          && 1 <= w.s.halfOpenReqs <= w.s.successCount + w.outstanding[Probe(w.episode)]
          && w.s.successCount < cfg.Recover())
  }

  lemma CoveredStep(cfg: CircuitBreakerConfig, w: World, m: Move)
    requires Covered(cfg, w) && Possible(w, m)
    ensures Covered(cfg, Do(cfg, w, m))
  {
    match m
    case Arrive(now) => ArrivalCovered(cfg, w, now);
    case Report(ticket, ok, now) => ReportCovered(cfg, w, ticket, ok, now);
    case Forget =>
  }

  lemma ArrivalCovered(cfg: CircuitBreakerConfig, w: World, now: int)
    requires Covered(cfg, w) && w.clock <= now
    ensures Covered(cfg, Do(cfg, w, Arrive(now)))
  {
  }

  lemma ReportCovered(cfg: CircuitBreakerConfig, w: World, ticket: Ticket, ok: bool, now: int)
    requires Covered(cfg, w) && ticket in w.outstanding && w.clock <= now
    ensures Covered(cfg, Do(cfg, w, Report(ticket, ok, now)))
  {
  }

  lemma {:induction false} CoveredAlways(cfg: CircuitBreakerConfig, ws: seq<World>, ms: seq<Move>, k: nat)
    requires IsRun(cfg, ws, ms) && k <= |ms|
    ensures Covered(cfg, ws[k])
  {
    if k > 0 {
      CoveredAlways(cfg, ws, ms, k - 1);
      CoveredStep(cfg, ws[k - 1], ms[k - 1]);
    }
  }

  // ---- Refusals ----

  /**
   However few are silent: a half-open breaker never refuses while at most `silent` probes of its
   current episode have not reported.
   */
  ghost predicate Tolerates(cfg: CircuitBreakerConfig, silent: nat) {
    forall w: World, now: int
      | Reachable(cfg, w) && w.s.state == HalfOpen && w.outstanding[Probe(w.episode)] <= silent && w.clock <= now ::
      Allow(cfg, w.s, now).1
  }

  lemma EnoughProbes(cfg: CircuitBreakerConfig, silent: nat)
    requires cfg.Recover() + silent <= cfg.Probes()
    ensures Tolerates(cfg, silent)
  {
    forall w: World, now: int
      | Reachable(cfg, w) && w.s.state == HalfOpen && w.outstanding[Probe(w.episode)] <= silent && w.clock <= now
      ensures Allow(cfg, w.s, now).1
    {
      var ws: seq<World>, ms: seq<Move> :| IsRun(cfg, ws, ms) && ws[|ms|] == w;
      CoveredAlways(cfg, ws, ms, |ms|);
    }
  }

  /** All probes of the episode are spent. */
  ghost predicate Spent(cfg: CircuitBreakerConfig, w: World) {
    w.s.state == HalfOpen && w.s.halfOpenReqs == cfg.Probes()
  }

  /** Nobody is admitted in any continuation without a reset in which, if `silent`, nobody reports either. */
  ghost predicate AdmitsNobody(cfg: CircuitBreakerConfig, w: World, silent: bool) {
    forall ws: seq<World>, ms: seq<Move>, k: nat
      | IsRunFrom(cfg, w, ws, ms) && k < |ms| && NoReset(ms, silent) && ms[k].Arrive? ::
      !Allow(cfg, ws[k].s, ms[k].now).1
  }

  predicate NoReset(ms: seq<Move>, silent: bool) {
    forall m | m in ms :: !m.Forget? && (silent ==> !m.Report?)
  }

  lemma SpentStays(cfg: CircuitBreakerConfig, w: World, m: Move, silent: bool)
    requires Spent(cfg, w) && (silent || w.outstanding == multiset{})
    requires Possible(w, m) && !m.Forget? && (silent ==> !m.Report?)
    ensures Do(cfg, w, m) == w.(clock := m.now)
  {
  }

  /** Spent probes stay spent while nobody reports; if nobody is left to report, nobody ever does. */
  lemma {:induction false} SpentForever(
      cfg: CircuitBreakerConfig, w: World, ws: seq<World>, ms: seq<Move>, silent: bool, k: nat)
    requires Spent(cfg, w) && (silent || w.outstanding == multiset{})
    requires IsRunFrom(cfg, w, ws, ms) && NoReset(ms, silent) && k <= |ms|
    ensures ws[k] == w.(clock := ws[k].clock)
  {
    if k > 0 {
      SpentForever(cfg, w, ws, ms, silent, k - 1);
      assert ms[k - 1] in ms;
      SpentStays(cfg, ws[k - 1], ms[k - 1], silent);
    }
  }

  lemma SpentAdmitsNobody(cfg: CircuitBreakerConfig, w: World, silent: bool)
    requires Spent(cfg, w) && (silent || w.outstanding == multiset{})
    ensures AdmitsNobody(cfg, w, silent)
  {
    forall ws: seq<World>, ms: seq<Move>, k: nat
      | IsRunFrom(cfg, w, ws, ms) && k < |ms| && NoReset(ms, silent) && ms[k].Arrive?
      ensures !Allow(cfg, ws[k].s, ms[k].now).1
    {
      SpentForever(cfg, w, ws, ms, silent, k);
    }
  }

  // ---- Runs that lead to a refusal ----

  /** n probes of the first half-open episode. */
  function FirstProbes(n: nat): multiset<Ticket> {
    multiset{}[Probe(1) := n]
  }

  /** Closed, or open, after n failures at time 0 with nothing outstanding. */
  ghost predicate FailedWorld(cfg: CircuitBreakerConfig, w: World, n: nat) {
    && w.outstanding == multiset{} && w.episode == 0 && w.s.failureCount == n && w.s.openTime == 0 && w.clock == 0
    && w.s.state == if n < cfg.Trip() then Closed else Open
  }

  /** Half-open since the timeout was over, with `spent` probes used, `out` of them unreported and m successes. */
  ghost predicate ProbedWorld(cfg: CircuitBreakerConfig, w: World, spent: nat, out: nat, m: nat) {
    && w.clock == cfg.TimeoutNs()
    && w.s.state == HalfOpen && w.episode == 1 && w.s.halfOpenReqs == spent && w.s.successCount == m
    && w.outstanding == FirstProbes(out)
  }

  lemma RequestFails(cfg: CircuitBreakerConfig, w: World, n: nat)
    requires FailedWorld(cfg, w, n) && n < cfg.Trip()
    ensures var asked := Do(cfg, w, Arrive(0));
      Ordinary in asked.outstanding && FailedWorld(cfg, Do(cfg, asked, Report(Ordinary, false, 0)), n + 1)
  {
  }

  lemma FirstProbeArrives(cfg: CircuitBreakerConfig, w: World)
    requires FailedWorld(cfg, w, cfg.Trip())
    ensures ProbedWorld(cfg, Do(cfg, w, Arrive(cfg.TimeoutNs())), 1, 1, 0)
  {
    SecondsReached(cfg.TimeoutNs(), cfg.timeoutSeconds);
  }

  lemma ProbeArrives(cfg: CircuitBreakerConfig, w: World, n: nat)
    requires ProbedWorld(cfg, w, n, n, 0) && 1 <= n < cfg.Probes()
    ensures ProbedWorld(cfg, Do(cfg, w, Arrive(cfg.TimeoutNs())), n + 1, n + 1, 0)
  {
  }

  lemma ProbeSucceeds(cfg: CircuitBreakerConfig, w: World, spent: nat, out: nat, m: nat)
    requires ProbedWorld(cfg, w, spent, out, m) && out > 0 && m + 1 < cfg.Recover()
    ensures Probe(1) in w.outstanding
    ensures ProbedWorld(cfg, Do(cfg, w, Report(Probe(1), true, cfg.TimeoutNs())), spent, out - 1, m + 1)
  {
  }

  /** n requests admitted while closed, each of which fails. */
  lemma {:induction false} FailTimes(cfg: CircuitBreakerConfig, n: nat) returns (w: World)
    requires n <= cfg.Trip()
    ensures Reachable(cfg, w) && FailedWorld(cfg, w, n)
  {
    if n == 0 {
      w := START;
      assert IsRun(cfg, [w], []);
    } else {
      var before := FailTimes(cfg, n - 1);
      RequestFails(cfg, before, n - 1);
      var asked := Do(cfg, before, Arrive(0));
      Reach(cfg, before, Arrive(0), asked);
      w := Do(cfg, asked, Report(Ordinary, false, 0));
      Reach(cfg, asked, Report(Ordinary, false, 0), w);
    }
  }

  /** After the timeout, n probes of the first half-open episode, none of which has reported. */
  lemma {:induction false} ProbeTimes(cfg: CircuitBreakerConfig, n: nat) returns (w: World)
    requires 1 <= n <= cfg.Probes()
    ensures Reachable(cfg, w) && ProbedWorld(cfg, w, n, n, 0)
  {
    var arrive, before := Arrive(cfg.TimeoutNs()), START;
    if n == 1 {
      before := FailTimes(cfg, cfg.Trip());
      FirstProbeArrives(cfg, before);
    } else {
      before := ProbeTimes(cfg, n - 1);
      ProbeArrives(cfg, before, n - 1);
    }
    w := Do(cfg, before, arrive);
    Reach(cfg, before, arrive, w);
  }

  /** From there, m of the probes succeed, too few to close the breaker. */
  lemma {:induction false} SucceedTimes(cfg: CircuitBreakerConfig, m: nat) returns (w: World)
    requires m <= cfg.Probes() && m < cfg.Recover()
    ensures Reachable(cfg, w) && ProbedWorld(cfg, w, cfg.Probes(), cfg.Probes() - m, m)
  {
    if m == 0 {
      w := ProbeTimes(cfg, cfg.Probes());
    } else {
      var before := SucceedTimes(cfg, m - 1);
      ProbeSucceeds(cfg, before, cfg.Probes(), cfg.Probes() - m + 1, m - 1);
      w := Do(cfg, before, Report(Probe(1), true, cfg.TimeoutNs()));
      Reach(cfg, before, Report(Probe(1), true, cfg.TimeoutNs()), w);
    }
  }

  /**
   How many silent probes an episode tolerates, exactly: a half-open breaker never refuses while at most
   `silent` probes of its episode are unreported if and only if that many can go silent and still leave
   as many probes as the breaker needs successes.
   */
  lemma ToleratesIff(cfg: CircuitBreakerConfig, silent: nat)
    ensures Tolerates(cfg, silent) <==> cfg.Recover() + silent <= cfg.Probes()
  {
    if cfg.Recover() + silent <= cfg.Probes() {
      EnoughProbes(cfg, silent);
    } else {
      var w := SucceedTimes(cfg, Min(cfg.Recover() - 1, cfg.Probes()));
      assert w.outstanding[Probe(w.episode)] <= silent;
      assert !Allow(cfg, w.s, w.clock).1;
    }
  }

  /**
   The breaker refuses only while a probe of its episode is unreported if and only if an episode has at
   least as many probes as it needs successes. Otherwise some run in which every request reports, and
   succeeds from the half-open episode on, ends in a world that never admits this IP again.
   */
  lemma NeverWedgesIff(cfg: CircuitBreakerConfig)
    ensures Tolerates(cfg, 0) <==> cfg.Recover() <= cfg.Probes()
    ensures cfg.Recover() > cfg.Probes() ==>
      exists w: World :: Reachable(cfg, w) && w.outstanding == multiset{} && AdmitsNobody(cfg, w, false)
  {
    ToleratesIff(cfg, 0);
    if cfg.Recover() > cfg.Probes() {
      var w := SucceedTimes(cfg, cfg.Probes());
      assert w.outstanding == multiset{};
      SpentAdmitsNobody(cfg, w, false);
    }
  }

  /**
   GET requests pass the check and never report. In any configuration they can use up an episode: from
   a reachable world nobody is admitted as long as nobody reports.
   */
  lemma SilentProbesBlock(cfg: CircuitBreakerConfig) returns (w: World)
    ensures Reachable(cfg, w) && w.s.state == HalfOpen && w.outstanding[Probe(w.episode)] == cfg.Probes()
    ensures AdmitsNobody(cfg, w, true)
  {
    w := ProbeTimes(cfg, cfg.Probes());
    SpentAdmitsNobody(cfg, w, true);
  }
}
