/** The headroom advertisement's idle count and the bounded drain that reclaims exactly the
    guests it counted (internal/capacity/capacity.go, internal/capacity/drain.go).  Times are
    integers of nanoseconds. */
module Capacity {
  import opened Wrappers

  const SECOND := 1_000_000_000
  const MINUTE := 60 * SECOND
  const FORCE_STOP_BUDGET := 15 * SECOND
  const DEFAULT_DRAIN_WINDOW := 120 * SECOND

  datatype Policy = Policy(excludedWorkloadClasses: seq<string>)

  datatype Container = Container(name: string, username: string, core: bool, state: string,
                                 workloadClass: string, idleThresholdMinutes: int,
                                 lastStartedAt: Option<int>)

  datatype Candidate = Candidate(containerName: string, username: string)

  // ---- which guests count ----

  /** Running, not a core service, not of an excluded class. */
  predicate Considered(p: Policy, c: Container) {
    && !c.core && c.state == "Running"
    && !(c.workloadClass != "" && c.workloadClass in p.excludedWorkloadClasses)
  }

  function Threshold(c: Container): int {
    var t := c.idleThresholdMinutes * MINUTE;
    if t <= 0 then 15 * MINUTE else t
  }

  /** A considered guest that was started at least its threshold ago. */
  predicate Idle(p: Policy, now: int, c: Container) {
    Considered(p, c) && c.lastStartedAt.Some? && now - c.lastStartedAt.value >= Threshold(c)
  }

  function CandidateOf(c: Container): Candidate {
    Candidate(c.name, if c.username == "" then c.name else c.username)
  }

  function CountIf(f: Container -> bool, cs: seq<Container>): nat {
    if cs == [] then 0 else CountIf(f, cs[..|cs| - 1]) + (if f(cs[|cs| - 1]) then 1 else 0)
  }

  /** The idle guests, in list order. */
  function Candidates(p: Policy, now: int, cs: seq<Container>): seq<Candidate> {
    if cs == [] then []
    else
      var c := cs[|cs| - 1];
      Candidates(p, now, cs[..|cs| - 1]) + (if Idle(p, now, c) then [CandidateOf(c)] else [])
  }

  /** Which guests are counted as idle and drained, in the container's own fields: running guests
      that are no core service and of no excluded class, started at least their threshold ago,
      15 minutes where none is set. */
  lemma IdleExactly(p: Policy, now: int, c: Container)
    ensures Idle(p, now, c) <==>
      && !c.core && c.state == "Running"
      && (c.workloadClass == "" || c.workloadClass !in p.excludedWorkloadClasses)
      && c.lastStartedAt.Some?
      && now - c.lastStartedAt.value
           >= (if c.idleThresholdMinutes > 0 then c.idleThresholdMinutes else 15) * 60_000_000_000
    ensures CandidateOf(c).containerName == c.name
    ensures CandidateOf(c).username == c.username || (c.username == "" && CandidateOf(c).username == c.name)
    ensures CandidateOf(c).username == "" ==> c.name == ""
  {
    assert MINUTE == 60_000_000_000;
    Minutes(c.idleThresholdMinutes);
  }

  lemma Minutes(m: int)
    ensures m * MINUTE == m * 60_000_000_000 && (m > 0 <==> m * MINUTE > 0)
  {
  }

  method Excludes(p: Policy, class_: string) returns (yes: bool)
    ensures yes <==> class_ != "" && class_ in p.excludedWorkloadClasses
  {
    if class_ == "" {
      return false;
    }
    for i := 0 to |p.excludedWorkloadClasses|
      invariant class_ !in p.excludedWorkloadClasses[..i]
    {
      if p.excludedWorkloadClasses[i] == class_ {
        return true;
      }
    }
    return false;
  }

  method HostIdle(p: Policy, now: int, cs: seq<Container>) returns (idle: nat, considered: nat)
    ensures idle == CountIf(c => Idle(p, now, c), cs)
    ensures considered == CountIf(c => Considered(p, c), cs)
  {
    idle, considered := 0, 0;
    ghost var isIdle, isConsidered := (c: Container) => Idle(p, now, c), (c: Container) => Considered(p, c);
    for i := 0 to |cs|
      invariant idle == CountIf(isIdle, cs[..i])
      invariant considered == CountIf(isConsidered, cs[..i])
    {
      var c := cs[i];
      assert cs[..i + 1][..i] == cs[..i] && cs[..i + 1][i] == c;
      if c.core {
        continue;
      }
      if c.state != "Running" {
        continue;
      }
      var out := Excludes(p, c.workloadClass);
      if out {
        continue;
      }
      considered := considered + 1;
      var threshold := c.idleThresholdMinutes * MINUTE;
      if threshold <= 0 {
        threshold := 15 * MINUTE;
      }
      if c.lastStartedAt.None? {
        continue;
      }
      if now - c.lastStartedAt.value >= threshold {
        idle := idle + 1;
      }
    }
    assert cs[..|cs|] == cs;
  }

  method DrainCandidates(p: Policy, now: int, cs: seq<Container>) returns (out: seq<Candidate>)
    ensures out == Candidates(p, now, cs)
  {
    out := [];
    for i := 0 to |cs|
      invariant out == Candidates(p, now, cs[..i])
    {
      var c := cs[i];
      assert cs[..i + 1][..i] == cs[..i] && cs[..i + 1][i] == c;
      if c.core {
        continue;
      }
      if c.state != "Running" {
        continue;
      }
      var excluded := Excludes(p, c.workloadClass);
      if excluded {
        continue;
      }
      var threshold := c.idleThresholdMinutes * MINUTE;
      if threshold <= 0 {
        threshold := 15 * MINUTE;
      }
      if c.lastStartedAt.None? || now - c.lastStartedAt.value < threshold {
        continue;
      }
      var username := c.username;
      if username == "" {
        username := c.name;
      }
      out := out + [Candidate(c.name, username)];
    }
    assert cs[..|cs|] == cs;
  }

  /** The set drained is the set advertised: as many candidates as idle guests counted, and a
      guest is a candidate exactly when it is idle. */
  lemma {:induction false} DrainedIsAdvertised(p: Policy, now: int, cs: seq<Container>)
    ensures |Candidates(p, now, cs)| == CountIf(c => Idle(p, now, c), cs)
    ensures forall d :: d in Candidates(p, now, cs)
              <==> exists i :: 0 <= i < |cs| && Idle(p, now, cs[i]) && CandidateOf(cs[i]) == d
    ensures CountIf(c => Idle(p, now, c), cs) <= CountIf(c => Considered(p, c), cs) <= |cs|
  {
    if cs != [] {
      var before, c := cs[..|cs| - 1], cs[|cs| - 1];
      DrainedIsAdvertised(p, now, before);
      assert forall i :: 0 <= i < |before| ==> before[i] == cs[i];
    }
  }

  // ---- the drain ----

  /** How one StopWorkload call would go: how long it takes, and its error if any. */
  datatype Attempt = Attempt(duration: nat, error: Option<string>)

  const STOP_TIMED_OUT := "capacity: stop exceeded its budget"

  /** How a stop under a budget can end: with its own result, or timed out; when both are due
      at once, either. */
  predicate Stop(a: Attempt, budget: int, took: int, err: Option<string>) {
    if a.duration < budget then took == a.duration && err == a.error
    else took == budget && (err == Some(STOP_TIMED_OUT) || (a.duration == budget && err == a.error))
  }

  datatype Outcome = Drained | ForceStopped | Failed(error: string)

  /** One candidate as the drain handled it: when, forced from the start or not, the first of the
      stops issued for it and how many there were, and how it ended. */
  datatype Handling = Handling(name: string, startedAt: int, endedAt: int, forced: bool,
                               first: nat, attempts: nat, outcome: Outcome)

  datatype DrainResult = DrainResult(drained: seq<string>, forceStopped: seq<string>,
                                     failed: map<string, string>, windowExceeded: bool, elapsed: int)

  /** How the k-th stop issued will go, for a user name, forced or graceful. */
  type Stops = (nat, string, bool) -> Attempt

  /** How a candidate's outcome follows from its first stop, graceful exactly while the window
      lasts, and, when that was graceful and failed, from the forced second one. */
  ghost predicate Handled(stops: Stops, c: Candidate, deadline: int, h: Handling) {
    var budget := if h.forced then FORCE_STOP_BUDGET else deadline - h.startedAt;
    && h.name == c.containerName && (h.forced <==> deadline <= h.startedAt)
    && exists took, err ::
         && Stop(stops(h.first, c.username, h.forced), budget, took, err)
         && Follows(stops(h.first + 1, c.username, true), h, took, err)
  }

  /** What follows from the first stop: its result, or the forced second stop's. */
  ghost predicate Follows(second: Attempt, h: Handling, took: int, err: Option<string>) {
    if err.None? then
      h.outcome == (if h.forced then ForceStopped else Drained)
      && h.attempts == 1 && h.endedAt == h.startedAt + took
    else if h.forced then
      h.outcome == Failed(err.value) && h.attempts == 1 && h.endedAt == h.startedAt + took
    else
      h.attempts == 2 && Retried(second, h.outcome, h.endedAt - h.startedAt - took)
  }

  ghost predicate Retried(second: Attempt, outcome: Outcome, took: int) {
    exists err :: Stop(second, FORCE_STOP_BUDGET, took, err) &&
      outcome == if err.None? then ForceStopped else Failed(err.value)
  }

  /** A candidate takes no time back, ends at most 15 seconds past the later of its start and the
      deadline, and drains only within the window. */
  lemma HandledTakes(stops: Stops, c: Candidate, deadline: int, h: Handling)
    requires Handled(stops, c, deadline, h)
    ensures h.startedAt <= h.endedAt
    ensures h.endedAt <= (if h.forced then h.startedAt else deadline) + 15_000_000_000
    ensures h.outcome.Drained? ==> !h.forced && h.endedAt <= deadline
    ensures h.attempts == 1 && !h.outcome.Failed? <==>
      h.outcome.Drained? || (h.outcome.ForceStopped? && h.forced)
  {
    var budget := if h.forced then FORCE_STOP_BUDGET else deadline - h.startedAt;
    var took, err :| && Stop(stops(h.first, c.username, h.forced), budget, took, err)
                     && Follows(stops(h.first + 1, c.username, true), h, took, err);
    StopTakes(stops(h.first, c.username, h.forced), budget, took, err);
    if err.Some? && !h.forced {
      var last := h.endedAt - h.startedAt - took;
      var ferr :| Stop(stops(h.first + 1, c.username, true), FORCE_STOP_BUDGET, last, ferr)
                  && h.outcome == if ferr.None? then ForceStopped else Failed(ferr.value);
      StopTakes(stops(h.first + 1, c.username, true), FORCE_STOP_BUDGET, last, ferr);
    }
  }

  /** What decides a candidate's outcome.  A stop that succeeds within its budget, what is left of
      the window or 15 seconds if forced, counts as asked for; a forced one that lasts longer has
      timed out; a graceful one that fails or outlasts the window is followed by a forced one. */
  lemma HandledBy(stops: Stops, c: Candidate, deadline: int, h: Handling)
    requires Handled(stops, c, deadline, h)
    ensures var budget := if h.forced then 15_000_000_000 else deadline - h.startedAt;
      var first, second := stops(h.first, c.username, h.forced), stops(h.first + 1, c.username, true);
      && (first.duration < budget && first.error.None? ==>
            h.outcome == (if h.forced then ForceStopped else Drained) && h.endedAt == h.startedAt + first.duration)
      && (h.forced && first.duration < budget && first.error.Some? ==> h.outcome == Failed(first.error.value))
      && (h.forced && first.duration > budget ==> h.outcome == Failed("capacity: stop exceeded its budget"))
      && (!h.forced && first.duration != budget && (first.duration > budget || first.error.Some?) ==>
            && h.attempts == 2
            && (second.duration < 15_000_000_000 ==>
                  h.outcome == if second.error.None? then ForceStopped else Failed(second.error.value))
            && (second.duration > 15_000_000_000 ==>
                  h.outcome == Failed("capacity: stop exceeded its budget")))
  {
  }

  lemma StopTakes(a: Attempt, budget: int, took: int, err: Option<string>)
    requires Stop(a, budget, took, err) && 0 < budget
    ensures 0 <= took <= budget
  {
  }

  function DrainedOf(t: seq<Handling>): seq<string> {
    if t == [] then []
    else
      var rest, h := DrainedOf(t[..|t| - 1]), t[|t| - 1];
      if h.outcome.Drained? then rest + [h.name] else rest
  }

  function ForcedOf(t: seq<Handling>): seq<string> {
    if t == [] then []
    else
      var rest, h := ForcedOf(t[..|t| - 1]), t[|t| - 1];
      if h.outcome.ForceStopped? then rest + [h.name] else rest
  }

  function FailedOf(t: seq<Handling>): map<string, string> {
    if t == [] then map[]
    else
      var rest, h := FailedOf(t[..|t| - 1]), t[|t| - 1];
      if h.outcome.Failed? then rest[h.name := h.outcome.error] else rest
  }

  /** Some candidate was started past the deadline. */
  predicate AnyForced(t: seq<Handling>) {
    t != [] && (AnyForced(t[..|t| - 1]) || t[|t| - 1].forced)
  }

  /** The fields of a result, read off a trace. */
  ghost predicate Tally(t: seq<Handling>, drained: seq<string>, forceStopped: seq<string>,
                        failed: map<string, string>, exceeded: bool) {
    && drained == DrainedOf(t) && forceStopped == ForcedOf(t) && failed == FailedOf(t)
    && exceeded == AnyForced(t)
  }

  lemma TallySnoc(t: seq<Handling>, h: Handling, drained: seq<string>, forceStopped: seq<string>,
                  failed: map<string, string>, exceeded: bool)
    requires Tally(t, drained, forceStopped, failed, exceeded)
    ensures Tally(t + [h],
                  if h.outcome.Drained? then drained + [h.name] else drained,
                  if h.outcome.ForceStopped? then forceStopped + [h.name] else forceStopped,
                  if h.outcome.Failed? then failed[h.name := h.outcome.error] else failed,
                  exceeded || h.forced)
  {
    var u := t + [h];
    assert u[..|u| - 1] == t && u[|u| - 1] == h;
  }

  class Clock {
    var now: int
    var attempts: nat

    constructor (now: int)
      ensures this.now == now && attempts == 0
    {
      this.now := now;
      attempts := 0;
    }
  }

  class Drainer {
    var draining: bool
    const stops: Stops

    constructor (stops: Stops)
      ensures !draining && this.stops == stops
    {
      this.stops := stops;
      draining := false;
    }

    /** stopWithBudget: the stop's own result, or a timeout once the budget is spent. */
    method StopWithBudget(clock: Clock, username: string, force: bool, budget: int)
      returns (err: Option<string>)
      modifies clock
      ensures clock.attempts == old(clock.attempts) + 1
      ensures Stop(stops(old(clock.attempts), username, force),
                   if budget <= 0 then FORCE_STOP_BUDGET else budget, clock.now - old(clock.now), err)
    {
      var b := if budget <= 0 then FORCE_STOP_BUDGET else budget;
      var a := stops(clock.attempts, username, force);
      clock.attempts := clock.attempts + 1;
      var doneFirst: bool := *;  // both channels ready: select may take either
      if a.duration < b || (a.duration == b && doneFirst) {
        clock.now := clock.now + a.duration;
        err := a.error;
      } else {
        clock.now := clock.now + b;
        err := Some(STOP_TIMED_OUT);
      }
    }

    /** One candidate: graceful while the window lasts, with one forced retry; forced after. */
    method Handle(clock: Clock, c: Candidate, deadline: int) returns (h: Handling)
      modifies clock
      ensures Handled(stops, c, deadline, h)
      ensures h.startedAt == old(clock.now) && h.endedAt == clock.now
      ensures h.first == old(clock.attempts) && clock.attempts == h.first + h.attempts
    {
      var startedAt, first := clock.now, clock.attempts;
      var remaining := deadline - startedAt;
      var forced := remaining <= 0;
      var err;
      if forced {
        err := StopWithBudget(clock, c.username, true, FORCE_STOP_BUDGET);
      } else {
        err := StopWithBudget(clock, c.username, false, remaining);
      }
      ghost var took := clock.now - startedAt;
      var outcome := if forced then ForceStopped else Drained;
      if err.Some? {
        outcome := Failed(err.value);
        if !forced {
          var ferr := StopWithBudget(clock, c.username, true, FORCE_STOP_BUDGET);
          outcome := if ferr.Some? then Failed(ferr.value) else ForceStopped;
          assert Retried(stops(first + 1, c.username, true), outcome, clock.now - startedAt - took);
        }
      }
      h := Handling(c.containerName, startedAt, clock.now, forced, first, clock.attempts - first, outcome);
      assert Stop(stops(first, c.username, forced), if forced then FORCE_STOP_BUDGET else remaining, took, err);
      assert Follows(stops(first + 1, c.username, true), h, took, err);
    }

    /** Drain.  `cancelled` is when the caller's context ends, if ever.  The trace says how
        each candidate was handled; every field of the result is read off it. */
    method Drain(clock: Clock, cs: seq<Candidate>, window: int, cancelled: Option<int>)
      returns (res: DrainResult, skipped: bool, ghost trace: seq<Handling>)
      modifies this`draining, clock
      ensures skipped == old(draining)
      ensures skipped ==> draining && trace == [] && unchanged(clock)
      ensures !skipped ==>
        var w := if window <= 0 then 120_000_000_000 else window;
        && !draining
        && Faithful(stops, trace, cs, old(clock.now) + w, old(clock.now), old(clock.attempts))
        && EndsWhere(trace, cs, cancelled) && (cancelled.None? ==> |trace| == |cs|)
        && Tally(trace, res.drained, res.forceStopped, res.failed, res.windowExceeded)
        && res.elapsed == clock.now - old(clock.now)
        && 0 <= res.elapsed <= w + 15_000_000_000 * |trace|
    {
      trace := [];
      if draining {
        return DrainResult([], [], map[], false, 0), true, trace;
      }
      draining := true;
      var w := if window <= 0 then DEFAULT_DRAIN_WINDOW else window;
      res, trace := Reclaim(clock, cs, clock.now + w, cancelled);
      draining := false;
      skipped := false;
    }

    /** The loop of Drain.  The context is looked at only after a stop that succeeded at its
        first attempt. */
    method Reclaim(clock: Clock, cs: seq<Candidate>, deadline: int, cancelled: Option<int>)
      returns (res: DrainResult, ghost trace: seq<Handling>)
      requires clock.now < deadline
      modifies clock
      ensures Faithful(stops, trace, cs, deadline, old(clock.now), old(clock.attempts))
      ensures EndsWhere(trace, cs, cancelled)
      ensures Tally(trace, res.drained, res.forceStopped, res.failed, res.windowExceeded)
      ensures res.elapsed == clock.now - old(clock.now)
      ensures old(clock.now) <= clock.now <= deadline + FORCE_STOP_BUDGET * |trace|
    {
      trace := [];
      var start := clock.now;
      res := DrainResult([], [], map[], false, 0);
      var i, stop := 0, false;
      while i < |cs| && !stop
        invariant 0 <= i <= |cs| && |trace| == i
        invariant start <= clock.now <= deadline + FORCE_STOP_BUDGET * i
        invariant clock.now == (if i == 0 then start else trace[i - 1].endedAt)
        invariant clock.attempts == (if i == 0 then old(clock.attempts)
                                     else trace[i - 1].first + trace[i - 1].attempts)
        invariant stop == (i > 0 && CutsShort(trace[i - 1], cancelled))
        invariant forall k :: 0 <= k < i - 1 ==> !CutsShort(trace[k], cancelled)
        invariant Faithful(stops, trace, cs, deadline, start, old(clock.attempts))
        invariant Tally(trace, res.drained, res.forceStopped, res.failed, res.windowExceeded)
        decreases |cs| - i
      {
        var h := Handle(clock, cs[i], deadline);
        HandledTakes(stops, cs[i], deadline, h);
        FaithfulSnoc(stops, trace, h, cs, deadline, start, old(clock.attempts));
        TallySnoc(trace, h, res.drained, res.forceStopped, res.failed, res.windowExceeded);
        trace := trace + [h];
        res := Record(res, h);
        Budget(i);
        var done := cancelled.Some? && cancelled.value <= clock.now;
        stop := done && (h.outcome.Drained? || (h.outcome.ForceStopped? && h.forced));
        i := i + 1;
      }
      res := res.(elapsed := clock.now - start);
    }
  }

  lemma Budget(i: nat)
    ensures 0 <= FORCE_STOP_BUDGET * i
    ensures FORCE_STOP_BUDGET * (i + 1) == FORCE_STOP_BUDGET * i + FORCE_STOP_BUDGET
  {
  }

  /** One candidate's outcome, written into the result. */
  function Record(res: DrainResult, h: Handling): DrainResult {
    var r := if h.forced then res.(windowExceeded := true) else res;
    match h.outcome
    case Drained => r.(drained := r.drained + [h.name])
    case ForceStopped => r.(forceStopped := r.forceStopped + [h.name])
    case Failed(e) => r.(failed := r.failed[h.name := e])
  }

  /** A candidate stopped at the first attempt, with the caller's context over by then. */
  predicate CutsShort(h: Handling, cancelled: Option<int>) {
    cancelled.Some? && cancelled.value <= h.endedAt && h.attempts == 1 && !h.outcome.Failed?
  }

  /** Where a drain ends: after the first candidate that cuts it short, else after the last. */
  ghost predicate EndsWhere(t: seq<Handling>, cs: seq<Candidate>, cancelled: Option<int>) {
    && |t| <= |cs| && (|t| < |cs| ==> t != [] && CutsShort(t[|t| - 1], cancelled))
    && forall i :: 0 <= i < |t| - 1 ==> !CutsShort(t[i], cancelled)
  }

  /** The trace handles a prefix of the candidates in order, each from where the one before it
      ended, in time and in stops issued. */
  ghost predicate Faithful(stops: Stops, t: seq<Handling>, cs: seq<Candidate>, deadline: int,
                           start: int, first: nat)
  {
    |t| <= |cs| && forall i :: 0 <= i < |t| ==> FaithfulAt(stops, t, cs[i], deadline, start, first, i)
  }

  ghost predicate FaithfulAt(stops: Stops, t: seq<Handling>, c: Candidate, deadline: int,
                             start: int, first: nat, i: nat)
    requires i < |t|
  {
    && Handled(stops, c, deadline, t[i])
    && t[i].startedAt == (if i == 0 then start else t[i - 1].endedAt)
    && t[i].first == (if i == 0 then first else t[i - 1].first + t[i - 1].attempts)
  }

  lemma FaithfulSnoc(stops: Stops, t: seq<Handling>, h: Handling, cs: seq<Candidate>, deadline: int,
                     start: int, first: nat)
    requires Faithful(stops, t, cs, deadline, start, first) && |t| < |cs|
    requires Handled(stops, cs[|t|], deadline, h)
    requires h.startedAt == if t == [] then start else t[|t| - 1].endedAt
    requires h.first == if t == [] then first else t[|t| - 1].first + t[|t| - 1].attempts
    ensures Faithful(stops, t + [h], cs, deadline, start, first)
  {
    forall i | 0 <= i < |t| + 1 ensures FaithfulAt(stops, t + [h], cs[i], deadline, start, first, i) {
      if i < |t| {
        assert FaithfulAt(stops, t, cs[i], deadline, start, first, i);
      }
    }
  }

  /** Once a candidate starts past the deadline, every later one is forced and none drains. */
  lemma {:induction false} ForcedStaysForced(stops: Stops, t: seq<Handling>, cs: seq<Candidate>,
                                             deadline: int, start: int, first: nat, i: nat, j: nat)
    requires Faithful(stops, t, cs, deadline, start, first) && i <= j < |t| && t[i].forced
    ensures t[j].forced && !t[j].outcome.Drained?
  {
    assert FaithfulAt(stops, t, cs[j], deadline, start, first, j);
    HandledTakes(stops, cs[j], deadline, t[j]);
    if i < j {
      ForcedStaysForced(stops, t, cs, deadline, start, first, i, j - 1);
      assert FaithfulAt(stops, t, cs[j - 1], deadline, start, first, j - 1);
      HandledTakes(stops, cs[j - 1], deadline, t[j - 1]);
    }
  }

  lemma {:induction false} AnyForcedExactly(t: seq<Handling>)
    ensures AnyForced(t) <==> exists i :: 0 <= i < |t| && t[i].forced
  {
    if t != [] {
      var before := t[..|t| - 1];
      AnyForcedExactly(before);
      assert forall i :: 0 <= i < |before| ==> before[i] == t[i];
      assert t[|t| - 1].forced ==> exists i :: 0 <= i < |t| && t[i].forced;
    }
  }

  lemma {:induction false} NamesOf(t: seq<Handling>, n: string)
    ensures n in DrainedOf(t) <==> exists i :: 0 <= i < |t| && t[i].name == n && t[i].outcome.Drained?
    ensures n in ForcedOf(t) <==> exists i :: 0 <= i < |t| && t[i].name == n && t[i].outcome.ForceStopped?
    ensures n in FailedOf(t) <==> exists i :: 0 <= i < |t| && t[i].name == n && t[i].outcome.Failed?
  {
    if t != [] {
      var before := t[..|t| - 1];
      NamesOf(before, n);
      assert forall i :: 0 <= i < |before| ==> before[i] == t[i];
      var h := t[|t| - 1];
      assert h.name == n ==> exists i :: 0 <= i < |t| && t[i].name == n && t[i].outcome == h.outcome;
    }
  }

  /** The trace names a prefix of the candidates, as every faithful one does. */
  ghost predicate NamedAs(t: seq<Handling>, cs: seq<Candidate>) {
    |t| <= |cs| && forall i :: 0 <= i < |t| ==> t[i].name == cs[i].containerName
  }

  lemma FaithfulIsNamed(stops: Stops, t: seq<Handling>, cs: seq<Candidate>, deadline: int,
                        start: int, first: nat)
    requires Faithful(stops, t, cs, deadline, start, first)
    ensures NamedAs(t, cs)
  {
    forall i | 0 <= i < |t| ensures t[i].name == cs[i].containerName {
      assert FaithfulAt(stops, t, cs[i], deadline, start, first, i);
    }
  }

  ghost predicate DistinctNames(cs: seq<Candidate>) {
    forall i, j :: 0 <= i < j < |cs| ==> cs[i].containerName != cs[j].containerName
  }

  /** Each handled, distinctly named candidate ends in exactly one of the three lists, the one
      its outcome names; the others in none. */
  lemma EachInExactlyOne(t: seq<Handling>, cs: seq<Candidate>, i: nat)
    requires NamedAs(t, cs) && DistinctNames(cs) && i < |cs|
    ensures var n := cs[i].containerName;
      if i < |t| then
        && (n in DrainedOf(t) <==> t[i].outcome.Drained?)
        && (n in ForcedOf(t) <==> t[i].outcome.ForceStopped?)
        && (n in FailedOf(t) <==> t[i].outcome.Failed?)
      else n !in DrainedOf(t) && n !in ForcedOf(t) && n !in FailedOf(t)
  {
    NamesOf(t, cs[i].containerName);
    assert forall k :: 0 <= k < |t| && t[k].name == cs[i].containerName ==> k == i;
  }

  /** Nothing else appears, and nothing is counted twice. */
  lemma {:induction false} CountsAddUp(t: seq<Handling>, cs: seq<Candidate>)
    requires NamedAs(t, cs) && DistinctNames(cs)
    ensures |DrainedOf(t)| + |ForcedOf(t)| + |FailedOf(t)| == |t|
  {
    if t != [] {
      var before, h := t[..|t| - 1], t[|t| - 1];
      CountsAddUp(before, cs);
      EachInExactlyOne(before, cs, |t| - 1);
    }
  }
}
