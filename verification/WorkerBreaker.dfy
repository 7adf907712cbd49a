/** The circuit breaker of `_CfWorkerPool` (proxy/pool.py): how long a failing worker is left alone. */
module WorkerBreaker {
  import opened Prelude

  const FAILURE_COOLDOWN := 60
  const QUOTA_COOLDOWN := 900
  const COOLDOWN_MAX := 21600
  const BACKOFF_STEPS := 8
  const LOCAL_ABORT_COOLDOWN := 5.0

  /** Host names; only their equality matters. */
  type Domain = nat

  /** HTTP 429 from the worker, an abort by the host's own network, or anything else. */
  datatype Failure = Quota | LocalAbort | Ordinary

  datatype Breaker = Breaker(until: map<Domain, real>, failures: map<Domain, nat>)

  const EMPTY := Breaker(map[], map[])

  // ----- Operations

  function Cooldown(quota: bool, failures: nat): nat
    requires failures >= 1
  {
    Min((if quota then QUOTA_COOLDOWN else FAILURE_COOLDOWN) * Pow2(failures - 1), COOLDOWN_MAX)
  }

  function Failures(b: Breaker, d: Domain): nat {
    if d in b.failures then b.failures[d] else 0
  }

  predicate Resting(b: Breaker, d: Domain, now: real) {
    d in b.until && b.until[d] > now
  }

  function ReportSuccess(b: Breaker, d: Domain): Breaker {
    Breaker(b.until - {d}, b.failures - {d})
  }

  function ReportFailure(b: Breaker, d: Domain, kind: Failure, now: real): Breaker {
    if kind == LocalAbort then
      var pause := now + LOCAL_ABORT_COOLDOWN;
      b.(until := b.until[d := if d in b.until && b.until[d] > pause then b.until[d] else pause])
    else if kind == Ordinary && Resting(b, d, now) then b
    else
      var failures := Min(Failures(b, d) + 1, BACKOFF_STEPS);
      Breaker(b.until[d := now + Cooldown(kind == Quota, failures) as real], b.failures[d := failures])
  }

  /** `available_domains`: expired rests are dropped on the way. */
  function Expire(b: Breaker, domains: set<Domain>, now: real): Breaker {
    b.(until := map d | d in b.until && !(d in domains && b.until[d] <= now) :: b.until[d])
  }

  // ----- Runs

  datatype Event =
    | Failed(domain: Domain, kind: Failure, now: real)
    | Succeeded(domain: Domain)
    | Asked(domains: set<Domain>, now: real)
    | WasReset

  function Tick(clock: real, e: Event): real {
    if e.Failed? || e.Asked? then e.now else clock
  }

  function Step(b: Breaker, e: Event): Breaker {
    match e
    case Failed(d, kind, now) => ReportFailure(b, d, kind, now)
    case Succeeded(d) => ReportSuccess(b, d)
    case Asked(domains, now) => Expire(b, domains, now)
    case WasReset => EMPTY
  }

  predicate Orderly(clock: real, events: seq<Event>)
    decreases |events|
  {
    events == [] || (clock <= Tick(clock, events[0]) && Orderly(Tick(clock, events[0]), events[1..]))
  }

  function After(b: Breaker, events: seq<Event>): Breaker
    decreases |events|
  {
    if events == [] then b else After(Step(b, events[0]), events[1..])
  }

  function LastTick(clock: real, events: seq<Event>): real
    decreases |events|
  {
    if events == [] then clock else LastTick(Tick(clock, events[0]), events[1..])
  }

  /** No rest reaches further than a quota rest of the same number of failures. */
  ghost predicate Inv(b: Breaker, clock: real) {
    && (forall d <- b.failures :: 1 <= b.failures[d] <= BACKOFF_STEPS)
    && (forall d <- b.until ::
          b.until[d] <= clock + if d in b.failures then Cooldown(true, b.failures[d]) as real else LOCAL_ABORT_COOLDOWN)
  }

  lemma CooldownLadder(a: nat, b: nat)
    requires 1 <= a <= b
    ensures FAILURE_COOLDOWN <= Cooldown(false, a) <= Cooldown(true, a) <= Cooldown(true, b) <= COOLDOWN_MAX
    ensures Cooldown(false, a) <= Cooldown(false, b)
  {
    Pow2Grows(0, a - 1);
    Pow2Grows(a - 1, b - 1);
  }

  lemma StepKeeps(b: Breaker, clock: real, e: Event)
    requires Inv(b, clock) && clock <= Tick(clock, e)
    ensures Inv(Step(b, e), Tick(clock, e))
  {
    hide Cooldown;
    forall d <- b.failures
      ensures Cooldown(true, b.failures[d]) as real >= LOCAL_ABORT_COOLDOWN
    {
      CooldownLadder(b.failures[d], b.failures[d]);
    }
    if e.Failed? {
      var f := Min(Failures(b, e.domain) + 1, BACKOFF_STEPS);
      CooldownLadder(f, f);
    }
  }

  lemma {:induction false} RunKeeps(b: Breaker, clock: real, events: seq<Event>)
    requires Inv(b, clock) && Orderly(clock, events)
    ensures Inv(After(b, events), LastTick(clock, events))
    decreases |events|
  {
    hide Inv, Step;
    if events != [] {
      StepKeeps(b, clock, events[0]);
      RunKeeps(Step(b, events[0]), Tick(clock, events[0]), events[1..]);
    }
  }

  /** A state of the breaker and the clock that events lead to, from its creation on. */
  ghost predicate Reachable(b: Breaker, clock: real) {
    exists start: real, events: seq<Event> ::
      Orderly(start, events) && b == After(EMPTY, events) && clock == LastTick(start, events)
  }

  lemma ReachableHolds(b: Breaker, clock: real)
    requires Reachable(b, clock)
    ensures Inv(b, clock)
  {
    var start: real, events: seq<Event> :|
      Orderly(start, events) && b == After(EMPTY, events) && clock == LastTick(start, events);
    RunKeeps(EMPTY, start, events);
  }

  predicate Forgets(e: Event, d: Domain) {
    e.WasReset? || (e.Succeeded? && e.domain == d)
  }

  lemma StepNeverShortens(b: Breaker, clock: real, e: Event, d: Domain)
    requires Inv(b, clock) && clock <= Tick(clock, e) && !Forgets(e, d)
    requires Resting(b, d, Tick(clock, e))
    ensures d in Step(b, e).until && Step(b, e).until[d] >= b.until[d]
  {}

  /** In any state a breaker gets to, a running rest is shortened by nothing but a success or a reset. */
  lemma RestNeverShortened(b: Breaker, clock: real, e: Event, d: Domain)
    requires Reachable(b, clock) && clock <= Tick(clock, e) && !Forgets(e, d)
    requires Resting(b, d, Tick(clock, e))
    ensures d in Step(b, e).until && Step(b, e).until[d] >= b.until[d]
  {
    ReachableHolds(b, clock);
    StepNeverShortens(b, clock, e, d);
  }

  predicate NeverForgets(events: seq<Event>, d: Domain) {
    forall e <- events :: !Forgets(e, d)
  }

  lemma {:induction false} RunRespects(b: Breaker, clock: real, events: seq<Event>, d: Domain, rest: real)
    requires Inv(b, clock) && Orderly(clock, events) && NeverForgets(events, d)
    requires d in b.until && b.until[d] >= rest && LastTick(clock, events) < rest
    ensures Resting(After(b, events), d, LastTick(clock, events))
    decreases |events|
  {
    hide Inv, Step, Forgets;
    if events != [] {
      var e := events[0];
      assert e in events;
      StepKeeps(b, clock, e);
      ClockRuns(Tick(clock, e), events[1..]);
      StepNeverShortens(b, clock, e, d);
      assert NeverForgets(events[1..], d) by { assert forall x <- events[1..] :: x in events; }
      RunRespects(Step(b, e), Tick(clock, e), events[1..], d, rest);
    }
  }

  /** So a worker stays unavailable, whatever else happens, as long as its rest lasts. */
  lemma RestIsRespected(b: Breaker, clock: real, events: seq<Event>, d: Domain)
    requires Reachable(b, clock) && Orderly(clock, events) && NeverForgets(events, d)
    requires d in b.until && LastTick(clock, events) < b.until[d]
    ensures Resting(After(b, events), d, LastTick(clock, events))
  {
    ReachableHolds(b, clock);
    RunRespects(b, clock, events, d, b.until[d]);
  }

  lemma {:induction false} ClockRuns(clock: real, events: seq<Event>)
    requires Orderly(clock, events)
    ensures clock <= LastTick(clock, events)
    decreases |events|
  {
    if events != [] {
      ClockRuns(Tick(clock, events[0]), events[1..]);
    }
  }

  /** Refused `n` times more, each time as a rest ends. */
  function FailRepeatedly(b: Breaker, d: Domain, kind: Failure, now: real, n: nat): Breaker
    requires kind != LocalAbort
    decreases n
  {
    if n == 0 then b
    else
      var b' := ReportFailure(b, d, kind, now);
      FailRepeatedly(b', d, kind, if d in b'.until then b'.until[d] else now, n - 1)
  }

  lemma {:induction false} LadderFrom(b: Breaker, d: Domain, kind: Failure, now: real, n: nat)
    requires kind != LocalAbort && !Resting(b, d, now)
    ensures Failures(FailRepeatedly(b, d, kind, now, n), d) ==
            if n == 0 then Failures(b, d) else Min(Failures(b, d) + n, BACKOFF_STEPS)
    decreases n
  {
    if n > 0 {
      var b' := ReportFailure(b, d, kind, now);
      LadderFrom(b', d, kind, b'.until[d], n - 1);
    }
  }

  /**
    After a success, the refusal that follows `n` others in a row begins a rest of 60 seconds doubled `n` times, at most
    seven; past its quota a worker rests 900 seconds doubled likewise, at most six hours.
  */
  lemma SuccessStartsOver(b: Breaker, d: Domain, kind: Failure, start: real, n: nat, now: real)
    requires kind != LocalAbort
    requires kind == Ordinary ==> !Resting(FailRepeatedly(ReportSuccess(b, d), d, kind, start, n), d, now)
    ensures !Resting(ReportSuccess(b, d), d, start)
    ensures
      var again := ReportFailure(FailRepeatedly(ReportSuccess(b, d), d, kind, start, n), d, kind, now);
      var k := Min(n, 7);
      d in again.until && again.until[d] == now +
        (if kind == Ordinary then 60 * [1, 2, 4, 8, 16, 32, 64, 128][k]
         else if k >= 5 then 21600 else 900 * [1, 2, 4, 8, 16][k]) as real
  {
    var clean := ReportSuccess(b, d);
    LadderFrom(clean, d, kind, start, n);
    assert Pow2(0) == 1 && Pow2(1) == 2 && Pow2(2) == 4 && Pow2(3) == 8;
    assert Pow2(4) == 16 && Pow2(5) == 32 && Pow2(6) == 64 && Pow2(7) == 128;
  }

  // ----- One worker at a time

  /** What there is to know of one worker: until when it rests, and its failures in a row. */
  datatype Worker = Worker(rest: real, failures: nat)

  /** The rests that follow the first failure in a row, the second and so on; past its quota, of any cause otherwise. */
  const QUOTA_LADDER: seq<nat> := [900, 1800, 3600, 7200, 14400, 21600, 21600, 21600]
  const LADDER: seq<nat> := [60, 120, 240, 480, 960, 1920, 3840, 7680]

  function React(w: Worker, e: Event, d: Domain, clock: real): Worker {
    match e
    case Failed(x, kind, now) =>
      if x != d || (kind == Ordinary && w.rest > now) then w
      else if kind == LocalAbort then w.(rest := if w.rest > now + 5.0 then w.rest else now + 5.0)
      else
        var failures := if w.failures < 8 then w.failures + 1 else 8;
        Worker(now + (if kind == Quota then QUOTA_LADDER else LADDER)[failures - 1] as real, failures)
    case Succeeded(x) => if x == d then Worker(clock, 0) else w
    case Asked(_, _) => w
    case WasReset => Worker(clock, 0)
  }

  function ReactAll(w: Worker, events: seq<Event>, d: Domain, clock: real): Worker
    decreases |events|
  {
    if events == [] then w else ReactAll(React(w, events[0], d, clock), events[1..], d, Tick(clock, events[0]))
  }

  /** From now on the breaker says of the worker what the record says. */
  ghost predicate Agrees(b: Breaker, d: Domain, w: Worker, clock: real) {
    && Failures(b, d) == w.failures <= 8
    && forall now: real :: now >= clock ==> (Resting(b, d, now) <==> w.rest > now)
  }

  lemma LaddersAreCooldowns(n: nat)
    requires 1 <= n <= 8
    ensures Cooldown(true, n) == QUOTA_LADDER[n - 1] && Cooldown(false, n) == LADDER[n - 1]
  {
    assert Pow2(0) == 1 && Pow2(1) == 2 && Pow2(2) == 4 && Pow2(3) == 8;
    assert Pow2(4) == 16 && Pow2(5) == 32 && Pow2(6) == 64 && Pow2(7) == 128;
  }

  lemma StepReacts(b: Breaker, e: Event, d: Domain, w: Worker, clock: real)
    requires Agrees(b, d, w, clock) && clock <= Tick(clock, e)
    ensures Agrees(Step(b, e), d, React(w, e, d, clock), Tick(clock, e))
  {
    if e.Failed? && e.domain == d {
      LaddersAreCooldowns(Min(Failures(b, d) + 1, 8));
      assert Resting(b, d, e.now) <==> w.rest > e.now;
      if e.kind == LocalAbort { PauseAgrees(b, d, w, e.now); }
      hide Cooldown;
    }
    forall now: real | now >= Tick(clock, e)
      ensures Resting(Step(b, e), d, now) <==> React(w, e, d, clock).rest > now
    {
      assert Resting(b, d, now) <==> w.rest > now;
    }
  }

  lemma PauseAgrees(b: Breaker, d: Domain, w: Worker, now: real)
    requires forall later: real :: later >= now ==> (Resting(b, d, later) <==> w.rest > later)
    ensures
      var w' := if w.rest > now + 5.0 then w.rest else now + 5.0;
      forall later: real :: later >= now ==> (Resting(ReportFailure(b, d, LocalAbort, now), d, later) <==> w' > later)
  {
    assert Resting(b, d, now + 5.0) <==> w.rest > now + 5.0;
    var w' := if w.rest > now + 5.0 then w.rest else now + 5.0;
    forall later: real | later >= now
      ensures Resting(ReportFailure(b, d, LocalAbort, now), d, later) <==> w' > later
    {
      assert Resting(b, d, later) <==> w.rest > later;
    }
  }

  lemma {:induction false} RunReacts(b: Breaker, events: seq<Event>, d: Domain, w: Worker, clock: real)
    requires Agrees(b, d, w, clock) && Orderly(clock, events)
    ensures Agrees(After(b, events), d, ReactAll(w, events, d, clock), LastTick(clock, events))
    decreases |events|
  {
    hide Step, React, Agrees;
    if events != [] {
      StepReacts(b, events[0], d, w, clock);
      RunReacts(Step(b, events[0]), events[1..], d, React(w, events[0], d, clock), Tick(clock, events[0]));
    }
  }

  /** Whether a worker rests, and how far it has climbed, is decided by what was heard of that worker alone. */
  lemma WorkersAreSeparate(events: seq<Event>, d: Domain, clock: real)
    requires Orderly(clock, events)
    ensures Agrees(After(EMPTY, events), d, ReactAll(Worker(clock, 0), events, d, clock), LastTick(clock, events))
  {
    RunReacts(EMPTY, events, d, Worker(clock, 0), clock);
  }

  // ----- Bursts

  /**
    Anything that may happen while parallel dials of one worker fail: other workers fail, succeed and are asked for, and
    this one keeps being refused or cut off by the local network. It neither succeeds nor runs out of its quota.
  */
  predicate Burst(events: seq<Event>, d: Domain, to: real) {
    forall e <- events ::
      && !Forgets(e, d) && !(e.Failed? && e.domain == d && e.kind == Quota)
      && (e.Failed? || e.Asked? ==> e.now < to)
  }

  predicate NoLocalAbort(events: seq<Event>, d: Domain) {
    forall e <- events :: !(e.Failed? && e.domain == d && e.kind == LocalAbort)
  }

  /**
    However many dials fail within the rest that the first failure began, the worker climbs one step only, and local
    aborts stretch the rest by no more than their own short pause.
  */
  lemma BurstClimbsOnce(b: Breaker, d: Domain, start: real, events: seq<Event>)
    requires !Resting(b, d, start)
    requires
      var first := ReportFailure(b, d, Ordinary, start);
      Burst(events, d, first.until[d])
    ensures
      var first := ReportFailure(b, d, Ordinary, start);
      var last := After(first, events);
      && Failures(last, d) == Failures(first, d) == Min(Failures(b, d) + 1, BACKOFF_STEPS)
      && d in last.until && first.until[d] <= last.until[d] <= first.until[d] + LOCAL_ABORT_COOLDOWN
      && (NoLocalAbort(events, d) ==> last.until[d] == first.until[d])
  {
    var first := ReportFailure(b, d, Ordinary, start);
    BurstFrom(first, d, first.until[d], events);
  }

  lemma {:induction false} BurstFrom(b: Breaker, d: Domain, rest: real, events: seq<Event>)
    requires Burst(events, d, rest)
    requires d in b.until && rest <= b.until[d] <= rest + LOCAL_ABORT_COOLDOWN
    ensures
      var last := After(b, events);
      && Failures(last, d) == Failures(b, d)
      && d in last.until && rest <= last.until[d] <= rest + LOCAL_ABORT_COOLDOWN
      && (NoLocalAbort(events, d) ==> last.until[d] == b.until[d])
    decreases |events|
  {
    if events != [] {
      var e := events[0];
      assert e in events;
      assert forall x <- events[1..] :: x in events;
      BurstFrom(Step(b, e), d, rest, events[1..]);
    }
  }

  // ----- The object

  class Workers {
    var until: map<Domain, real>
    var failures: map<Domain, nat>

    function Model(): Breaker
      reads this
    {
      Breaker(until, failures)
    }

    constructor ()
      ensures Model() == EMPTY
    {
      until, failures := map[], map[];
    }

    /** Each worker that is not resting, once, in some order. */
    method AvailableDomains(workers: seq<Domain>, now: real) returns (domains: seq<Domain>)
      modifies this
      ensures forall d :: d in domains <==> d in workers && !Resting(old(Model()), d, now)
      ensures forall i, j :: 0 <= i < j < |domains| ==> domains[i] != domains[j]
      ensures Model() == Expire(old(Model()), (set d | d in workers), now)
    {
      domains := [];
      for i := 0 to |workers|
        invariant failures == old(failures)
        invariant until == Expire(old(Model()), (set d | d in workers[..i]), now).until
        invariant forall d :: d in domains <==> d in workers[..i] && !Resting(old(Model()), d, now)
        invariant forall j, k :: 0 <= j < k < |domains| ==> domains[j] != domains[k]
      {
        var domain := workers[i];
        assert workers[..i + 1] == workers[..i] + [domain];
        if domain in domains { continue; }
        if domain in until && until[domain] > now { continue; }
        until := until - {domain};
        domains := domains + [domain];
      }
      assert workers[..|workers|] == workers;
    }

    method Succeed(d: Domain)
      modifies this
      ensures Model() == ReportSuccess(old(Model()), d)
    {
      until := until - {d};
      failures := failures - {d};
    }

    /** The result is the length of the rest from now on. */
    method Fail(d: Domain, kind: Failure, now: real) returns (pause: real)
      modifies this
      ensures Model() == ReportFailure(old(Model()), d, kind, now)
      ensures d in until && until[d] == now + pause
    {
      var base := if kind == Quota then QUOTA_COOLDOWN else FAILURE_COOLDOWN;
      if kind == LocalAbort {
        var paused := now + LOCAL_ABORT_COOLDOWN;
        if d in until && until[d] > paused { paused := until[d]; }
        until := until[d := paused];
        return paused - now;
      }
      if kind != Quota && d in until && until[d] > now { return until[d] - now; }
      var count := Min((if d in failures then failures[d] else 0) + 1, BACKOFF_STEPS);
      failures := failures[d := count];
      var cooldown := Min(base * Pow2(count - 1), COOLDOWN_MAX);
      until := until[d := now + cooldown as real];
      return cooldown as real;
    }
  }
}
