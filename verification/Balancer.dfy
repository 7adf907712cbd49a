/** `_Balancer` (proxy/balancer.py): which fronts a fallback may dial, and how long a failing one rests. */
module Balancer {
  import opened Prelude

  const FAILURE_COOLDOWN := 60
  const MAX_COOLDOWN := 600
  const BACKOFF_STEPS := 8
  const IN_FLIGHT_HOLD := 12.0
  const MAX_ATTEMPTS := 3

  /** Host names; only their equality matters. */
  type Domain = nat

  datatype Book = Book(
    domains: seq<Domain>,
    current: map<nat, Domain>,
    until: map<Domain, real>,
    failures: map<Domain, nat>,
    healthy: set<Domain>
  )

  // ----- Operations

  /** The rest after a number of failures in a row. */
  function Cooldown(failures: nat): nat
    requires failures >= 1
  {
    Min(FAILURE_COOLDOWN * Pow2(failures - 1), MAX_COOLDOWN)
  }

  predicate Resting(b: Book, d: Domain, now: real) {
    d in b.until && b.until[d] > now
  }

  function Failures(b: Book, d: Domain): nat {
    if d in b.failures then b.failures[d] else 0
  }

  /** The generator offers a front that is not resting, and holds it back while it is dialled unless it is proven. */
  function Offer(b: Book, d: Domain, reserve: bool, now: real): Book {
    if reserve && d !in b.healthy then b.(until := b.until[d := now + IN_FLIGHT_HOLD]) else b
  }

  function ReportSuccess(b: Book, d: Domain): Book {
    b.(until := b.until - {d}, failures := b.failures - {d}, healthy := b.healthy + {d})
  }

  function ReportFailure(b: Book, d: Domain, now: real): Book {
    var failures := Min(Failures(b, d) + 1, BACKOFF_STEPS);
    b.(healthy := b.healthy - {d}, failures := b.failures[d := failures],
       until := b.until[d := now + Cooldown(failures) as real])
  }

  /** `update_domains_list`: a changed pool forgets everything about fronts that left it. */
  function UpdateDomainsList(b: Book, domains: seq<Domain>, current: map<nat, Domain>): Book {
    if multiset(b.domains) == multiset(domains) then b
    else
      Book(domains, current, map d | d in b.until && d in domains :: b.until[d],
           map d | d in b.failures && d in domains :: b.failures[d], set d | d in b.healthy && d in domains)
  }

  // ----- Runs

  datatype Event =
    | Offered(domain: Domain, reserve: bool, now: real)
    | Failed(domain: Domain, now: real)
    | Succeeded(domain: Domain)
    | Refreshed(domains: seq<Domain>, current: map<nat, Domain>)
    | CurrentChanged(dc: nat, domain: Domain)

  /** Offers go to fronts that do not rest, and the clock does not run backwards. */
  predicate Enabled(b: Book, clock: real, e: Event) {
    match e
    case Offered(d, reserve, now) => clock <= now && !Resting(b, d, now)
    case Failed(d, now) => clock <= now
    case _ => true
  }

  function Step(b: Book, e: Event): Book {
    match e
    case Offered(d, reserve, now) => Offer(b, d, reserve, now)
    case Failed(d, now) => ReportFailure(b, d, now)
    case Succeeded(d) => ReportSuccess(b, d)
    case Refreshed(domains, current) => UpdateDomainsList(b, domains, current)
    case CurrentChanged(dc, d) => b.(current := b.current[dc := d])
  }

  function Tick(clock: real, e: Event): real {
    if e.Offered? || e.Failed? then e.now else clock
  }

  predicate IsRun(b: Book, clock: real, events: seq<Event>)
    decreases |events|
  {
    events == [] ||
    (Enabled(b, clock, events[0]) && IsRun(Step(b, events[0]), Tick(clock, events[0]), events[1..]))
  }

  function After(b: Book, events: seq<Event>): Book
    decreases |events|
  {
    if events == [] then b else After(Step(b, events[0]), events[1..])
  }

  /** No rest reaches further than the ladder allows. */
  ghost predicate Inv(b: Book, clock: real) {
    && (forall d <- b.failures :: 1 <= b.failures[d] <= BACKOFF_STEPS)
    && (forall d <- b.until ::
          b.until[d] <= clock + if d in b.failures then Cooldown(b.failures[d]) as real else IN_FLIGHT_HOLD)
  }

  const EMPTY := Book([], map[], map[], map[], {})

  lemma CooldownLadder(a: nat, b: nat)
    requires 1 <= a <= b
    ensures FAILURE_COOLDOWN <= Cooldown(a) <= Cooldown(b) <= MAX_COOLDOWN
  {
    Pow2Grows(0, a - 1);
    Pow2Grows(a - 1, b - 1);
  }

  /** A later failure never brings a rest forward. */
  lemma FailureExtends(b: Book, clock: real, d: Domain, now: real)
    requires Inv(b, clock) && clock <= now
    ensures d in b.until ==> b.until[d] <= now + Cooldown(Min(Failures(b, d) + 1, BACKOFF_STEPS)) as real
  {}

  lemma StepKeeps(b: Book, clock: real, e: Event)
    requires Inv(b, clock) && Enabled(b, clock, e)
    ensures clock <= Tick(clock, e) && Inv(Step(b, e), Tick(clock, e))
  {}

  function LastTick(clock: real, events: seq<Event>): real
    decreases |events|
  {
    if events == [] then clock else LastTick(Tick(clock, events[0]), events[1..])
  }

  lemma {:induction false} RunKeeps(b: Book, clock: real, events: seq<Event>)
    requires Inv(b, clock) && IsRun(b, clock, events)
    ensures Inv(After(b, events), LastTick(clock, events))
    decreases |events|
  {
    hide Inv, Step, Enabled;
    if events != [] {
      StepKeeps(b, clock, events[0]);
      RunKeeps(Step(b, events[0]), Tick(clock, events[0]), events[1..]);
    }
  }

  /** A state of the balancer and the clock that events lead to, from its creation on. */
  ghost predicate Reachable(b: Book, clock: real) {
    exists start: real, events: seq<Event> ::
      IsRun(EMPTY, start, events) && b == After(EMPTY, events) && clock == LastTick(start, events)
  }

  lemma ReachableHolds(b: Book, clock: real)
    requires Reachable(b, clock)
    ensures Inv(b, clock)
  {
    var start: real, events: seq<Event> :|
      IsRun(EMPTY, start, events) && b == After(EMPTY, events) && clock == LastTick(start, events);
    RunKeeps(EMPTY, start, events);
  }

  /** What ends a rest early: a success, or a refresh of the pool that no longer names the front. */
  predicate Forgets(b: Book, e: Event, d: Domain) {
    || (e.Succeeded? && e.domain == d)
    || (e.Refreshed? && multiset(b.domains) != multiset(e.domains) && d !in e.domains)
  }

  lemma StepNeverShortens(b: Book, clock: real, e: Event, d: Domain)
    requires Inv(b, clock) && Enabled(b, clock, e) && !Forgets(b, e, d) && Resting(b, d, clock)
    ensures d in Step(b, e).until && Step(b, e).until[d] >= b.until[d]
  {}

  /** In any state a balancer gets to, a rest that has begun is shortened by nothing else. */
  lemma RestNeverShortened(b: Book, clock: real, e: Event, d: Domain)
    requires Reachable(b, clock) && Enabled(b, clock, e) && !Forgets(b, e, d) && Resting(b, d, clock)
    ensures d in Step(b, e).until && Step(b, e).until[d] >= b.until[d]
  {
    ReachableHolds(b, clock);
    StepNeverShortens(b, clock, e, d);
  }

  predicate NeverForgets(b: Book, events: seq<Event>, d: Domain)
    decreases |events|
  {
    events == [] || (!Forgets(b, events[0], d) && NeverForgets(Step(b, events[0]), events[1..], d))
  }

  lemma {:induction false} RunRespects(b: Book, clock: real, events: seq<Event>, d: Domain, rest: real)
    requires Inv(b, clock) && IsRun(b, clock, events) && NeverForgets(b, events, d)
    requires clock >= rest || (d in b.until && b.until[d] >= rest)
    ensures forall i :: 0 <= i < |events| && events[i].Offered? && events[i].domain == d ==> events[i].now >= rest
    decreases |events|
  {
    hide Step, Forgets, Inv;
    if events != [] {
      var e := events[0];
      StepKeeps(b, clock, e);
      if Tick(clock, e) < rest {
        StepNeverShortens(b, clock, e, d);
      }
      RunRespects(Step(b, e), Tick(clock, e), events[1..], d, rest);
    }
  }

  /** Until a rest is over, or forgotten, its front is offered to nobody, by any number of sweeps at once. */
  lemma RestIsRespected(b: Book, clock: real, events: seq<Event>, d: Domain)
    requires Reachable(b, clock) && IsRun(b, clock, events) && NeverForgets(b, events, d) && d in b.until
    ensures forall i :: 0 <= i < |events| && events[i].Offered? && events[i].domain == d ==> events[i].now >= b.until[d]
  {
    ReachableHolds(b, clock);
    RunRespects(b, clock, events, d, b.until[d]);
  }

  // ----- How often a dead front is dialled

  /** What an observer of one front notes: its offers, and whether the last one has not failed yet. */
  datatype Watch = Watch(offers: nat, first: real, last: real, open: bool)

  function Note(w: Watch, e: Event, d: Domain): Watch {
    if e.Offered? && e.domain == d then
      Watch(w.offers + 1, if w.offers == 0 then e.now else w.first, e.now, true)
    else if e.Failed? && e.domain == d then w.(open := false)
    else w
  }

  function Watched(w: Watch, events: seq<Event>, d: Domain): Watch
    decreases |events|
  {
    if events == [] then w else Watched(Note(w, events[0], d), events[1..], d)
  }

  /** Each offer of the front has failed before it is offered again. */
  predicate FailsEachTime(w: Watch, events: seq<Event>, d: Domain)
    decreases |events|
  {
    events == [] ||
    ((events[0].Offered? && events[0].domain == d ==> !w.open) && FailsEachTime(Note(w, events[0], d), events[1..], d))
  }

  /** The earliest moment, after the first, for the n-th offer. */
  function Earliest(n: nat): nat
    requires n >= 1
  {
    if n == 1 then 0 else Earliest(n - 1) + Cooldown(n - 1)
  }

  lemma {:induction false} EarliestFrom5(n: nat)
    requires n >= 5
    ensures Earliest(n) == 900 + 600 * (n - 5)
  {
    if n == 5 {
      assert Cooldown(1) == 60 && Cooldown(2) == 120 && Cooldown(3) == 240 && Cooldown(4) == 480;
      assert Earliest(2) == 60 && Earliest(3) == 180;
    } else {
      EarliestFrom5(n - 1);
      Pow2Grows(4, n - 2);
      assert Pow2(4) == 16;
    }
  }

  ghost predicate Spaced(b: Book, clock: real, w: Watch, d: Domain) {
    w.offers > 0 ==>
      && w.first + Earliest(w.offers) as real <= w.last <= clock
      && Failures(b, d) >= Min(if w.open then w.offers - 1 else w.offers, BACKOFF_STEPS)
      && (!w.open ==> d in b.until && b.until[d] >= w.first + Earliest(w.offers + 1) as real)
  }

  lemma NoteSpaced(b: Book, clock: real, w: Watch, e: Event, d: Domain)
    requires Inv(b, clock) && Enabled(b, clock, e) && Spaced(b, clock, w, d) && !Forgets(b, e, d)
    requires e.Offered? && e.domain == d ==> !w.open
    ensures Spaced(Step(b, e), Tick(clock, e), Note(w, e, d), d)
  {
    if e.Failed? && e.domain == d && w.offers > 0 {
      FailureExtends(b, clock, d, e.now);
      var f := Min(Failures(b, d) + 1, BACKOFF_STEPS);
      CapIsReached(w.offers, f);
    }
  }

  /** Counting stops at eight, where the rest has long been as long as it gets. */
  lemma CapIsReached(offers: nat, f: nat)
    requires offers >= 1 && f >= Min(offers, BACKOFF_STEPS)
    ensures f >= 1 && Cooldown(f) >= Cooldown(offers)
  {
    CooldownLadder(Min(offers, BACKOFF_STEPS), f);
    if offers > BACKOFF_STEPS {
      Pow2Grows(4, 7);
      assert Pow2(4) == 16;
      CooldownLadder(offers, offers);
    }
  }

  lemma {:induction false} RunSpaced(b: Book, clock: real, w: Watch, events: seq<Event>, d: Domain)
    requires Inv(b, clock) && IsRun(b, clock, events) && Spaced(b, clock, w, d)
    requires NeverForgets(b, events, d) && FailsEachTime(w, events, d)
    ensures
      var w' := Watched(w, events, d);
      w'.offers > 0 ==> w'.first + Earliest(w'.offers) as real <= w'.last
    decreases |events|
  {
    hide Inv, Step, Enabled, Spaced, Note, Forgets;
    if events != [] {
      var e := events[0];
      NoteSpaced(b, clock, w, e, d);
      StepKeeps(b, clock, e);
      RunSpaced(Step(b, e), Tick(clock, e), Note(w, e, d), events[1..], d);
    } else if w.offers > 0 {
      SpacedNow(b, clock, w, d);
    }
  }

  lemma SpacedNow(b: Book, clock: real, w: Watch, d: Domain)
    requires Spaced(b, clock, w, d) && w.offers > 0
    ensures w.first + Earliest(w.offers) as real <= w.last
  {}

  /**
    From any state a balancer gets to, whatever other fronts and sweeps do: a front that fails after every offer gets
    its n-th offer (n at least five) no sooner than 900 + 600 (n - 5) seconds after the first.
  */
  lemma DeadFrontIsDialledRarely(b: Book, clock: real, events: seq<Event>, d: Domain)
    requires Reachable(b, clock) && IsRun(b, clock, events) && NeverForgets(b, events, d)
    requires FailsEachTime(Watch(0, 0.0, 0.0, false), events, d)
    ensures
      var w := Watched(Watch(0, 0.0, 0.0, false), events, d);
      w.offers >= 5 ==> w.last >= w.first + (900 + 600 * (w.offers - 5)) as real
  {
    ReachableHolds(b, clock);
    RunSpaced(b, clock, Watch(0, 0.0, 0.0, false), events, d);
    var w := Watched(Watch(0, 0.0, 0.0, false), events, d);
    if w.offers >= 5 { EarliestFrom5(w.offers); }
  }

  // ----- The ladder

  /** Failing `n` times more, each time as a rest ends. */
  function FailRepeatedly(b: Book, d: Domain, now: real, n: nat): Book
    decreases n
  {
    if n == 0 then b
    else
      var b' := ReportFailure(b, d, now);
      FailRepeatedly(b', d, b'.until[d], n - 1)
  }

  lemma {:induction false} LadderFrom(b: Book, d: Domain, now: real, n: nat)
    requires n >= 1
    ensures
      var last := FailRepeatedly(b, d, now, n);
      && Failures(last, d) == Min(Failures(b, d) + n, BACKOFF_STEPS) && d in last.until && d !in last.healthy
      && forall o :: o != d ==> (Failures(last, o) == Failures(b, o)) && (o in last.until <==> o in b.until)
                                && (o in last.until ==> last.until[o] == b.until[o])
    decreases n
  {
    if n > 1 {
      var b' := ReportFailure(b, d, now);
      LadderFrom(b', d, b'.until[d], n - 1);
    }
  }

  /**
    A success wipes the slate: the front is offered at once, and its next failures in a row make it rest 60, 120, 240
    and 480 seconds, then 600 each time; no other front is affected.
  */
  lemma SuccessStartsOver(b: Book, d: Domain, now: real, n: nat)
    ensures !Resting(ReportSuccess(b, d), d, now) && d in ReportSuccess(b, d).healthy
    ensures
      var failed := FailRepeatedly(ReportSuccess(b, d), d, now, n);
      var again := ReportFailure(failed, d, now);
      && again.until[d] == now + (if n >= 4 then 600 else [60, 120, 240, 480][n]) as real
      && forall o :: o != d ==> (Resting(again, o, now) <==> Resting(b, o, now))
  {
    var clean := ReportSuccess(b, d);
    var failed := FailRepeatedly(clean, d, now, n);
    if n >= 1 { LadderFrom(clean, d, now, n); }
    var f := Min(n + 1, BACKOFF_STEPS);
    assert Failures(failed, d) == Min(n, BACKOFF_STEPS);
    assert Pow2(0) == 1 && Pow2(1) == 2 && Pow2(2) == 4 && Pow2(3) == 8 && Pow2(4) == 16;
    if n >= 4 { Pow2Grows(4, f - 1); }
  }

  // ----- One front at a time

  /** What there is to know of one front: until when it rests, its failures in a row, and whether it is proven. */
  datatype Front = Front(rest: Option<real>, failures: nat, proven: bool)

  const STRANGER := Front(None, 0, false)

  function FrontOf(b: Book, d: Domain): Front {
    Front(if d in b.until then Some(b.until[d]) else None, Failures(b, d), d in b.healthy)
  }

  /** The rests of a front that fails for the first time, the second time and so on. */
  const LADDER: seq<nat> := [60, 120, 240, 480, 600, 600, 600, 600]

  function React(f: Front, pool: seq<Domain>, e: Event, d: Domain): Front {
    match e
    case Offered(x, reserve, now) => if x == d && reserve && !f.proven then f.(rest := Some(now + 12.0)) else f
    case Failed(x, now) =>
      if x != d then f
      else
        var failures := if f.failures < 8 then f.failures + 1 else 8;
        Front(Some(now + LADDER[failures - 1] as real), failures, false)
    case Succeeded(x) => if x == d then Front(None, 0, true) else f
    case Refreshed(domains, _) => if multiset(pool) != multiset(domains) && d !in domains then STRANGER else f
    case CurrentChanged(_, _) => f
  }

  function PoolAfter(pool: seq<Domain>, e: Event): seq<Domain> {
    if e.Refreshed? && multiset(pool) != multiset(e.domains) then e.domains else pool
  }

  function ReactAll(f: Front, pool: seq<Domain>, events: seq<Event>, d: Domain): Front
    decreases |events|
  {
    if events == [] then f else ReactAll(React(f, pool, events[0], d), PoolAfter(pool, events[0]), events[1..], d)
  }

  lemma LadderIsCooldown(n: nat)
    requires 1 <= n <= 8
    ensures Cooldown(n) == LADDER[n - 1]
  {
    assert Pow2(0) == 1 && Pow2(1) == 2 && Pow2(2) == 4 && Pow2(3) == 8 && Pow2(4) == 16 && Pow2(5) == 32;
  }

  lemma StepReacts(b: Book, e: Event, d: Domain)
    requires forall x <- b.failures :: 1 <= b.failures[x] <= BACKOFF_STEPS
    ensures FrontOf(Step(b, e), d) == React(FrontOf(b, d), b.domains, e, d)
    ensures Step(b, e).domains == PoolAfter(b.domains, e)
    ensures forall x <- Step(b, e).failures :: 1 <= Step(b, e).failures[x] <= BACKOFF_STEPS
  {
    if e.Failed? { LadderIsCooldown(Min(Failures(b, e.domain) + 1, BACKOFF_STEPS)); }
  }

  /** What a balancer knows of a front is what became of that front alone, whatever happened to others. */
  lemma {:induction false} FrontsAreSeparate(b: Book, events: seq<Event>, d: Domain)
    requires forall x <- b.failures :: 1 <= b.failures[x] <= BACKOFF_STEPS
    ensures FrontOf(After(b, events), d) == ReactAll(FrontOf(b, d), b.domains, events, d)
    decreases |events|
  {
    hide Step, React;
    if events != [] {
      StepReacts(b, events[0], d);
      FrontsAreSeparate(Step(b, events[0]), events[1..], d);
    }
  }

  lemma FrontFromStart(events: seq<Event>, d: Domain)
    ensures FrontOf(After(EMPTY, events), d) == ReactAll(STRANGER, [], events, d)
  {
    FrontsAreSeparate(EMPTY, events, d);
  }

  /** While an unproven front is dialled, no other sweep offers it for twelve seconds, unless it is heard of before. */
  lemma HeldWhileDialled(b: Book, clock: real, d: Domain, now: real, events: seq<Event>)
    requires Reachable(b, clock) && Enabled(b, clock, Offered(d, true, now)) && d !in b.healthy
    requires
      var held := Step(b, Offered(d, true, now));
      IsRun(held, now, events) && NeverForgets(held, events, d)
    ensures forall i :: 0 <= i < |events| && events[i].Offered? && events[i].domain == d ==> events[i].now >= now + 12.0
  {
    ReachableHolds(b, clock);
    StepKeeps(b, clock, Offered(d, true, now));
    RunRespects(Step(b, Offered(d, true, now)), now, events, d, now + 12.0);
  }

  // ----- One sweep

  function Where(s: seq<Domain>, healthy: set<Domain>, wanted: bool): (r: seq<Domain>)
    ensures forall d :: d in r <==> d in s && (d in healthy <==> wanted)
  {
    if s == [] then []
    else (if (s[0] in healthy) == wanted then [s[0]] else []) + Where(s[1..], healthy, wanted)
  }

  function Without(s: seq<Domain>, current: Option<Domain>): (r: seq<Domain>)
    ensures forall d :: d in r <==> d in s && current != Some(d)
  {
    if s == [] then []
    else (if current == Some(s[0]) then [] else [s[0]]) + Without(s[1..], current)
  }

  /** The order of a sweep; `rest` is a shuffle of the pool without the current front. */
  function Candidates(current: Option<Domain>, rest: seq<Domain>, healthy: set<Domain>): seq<Domain> {
    (if current.Some? then [current.value] else []) + Where(rest, healthy, true) + Where(rest, healthy, false)
  }

  /** Every front of the pool gets its turn. */
  lemma CandidatesComplete(b: Book, current: Option<Domain>, rest: seq<Domain>, d: Domain)
    requires multiset(rest) == multiset(Without(b.domains, current))
    ensures d in Candidates(current, rest, b.healthy) <==> d in b.domains || current == Some(d)
  {
    assert d in rest <==> d in multiset(rest);
    assert d in Without(b.domains, current) <==> d in multiset(Without(b.domains, current));
    if current.Some? { assert d in [current.value] <==> d == current.value; }
  }

  /** The current front comes first, then proven ones before unproven ones. */
  lemma CandidatesOrder(current: Option<Domain>, rest: seq<Domain>, healthy: set<Domain>)
    ensures
      var c := Candidates(current, rest, healthy);
      && (current.Some? ==> c != [] && c[0] == current.value)
      && ProvenFirst(if current.Some? then c[1..] else c, healthy)
  {}

  predicate ProvenFirst(s: seq<Domain>, healthy: set<Domain>) {
    forall i: nat, j: nat :: i < j < |s| && s[j] in healthy ==> s[i] in healthy
  }

  class FrontBalancer {
    var domains: seq<Domain>
    var current: map<nat, Domain>
    var until: map<Domain, real>
    var failures: map<Domain, nat>
    var healthy: set<Domain>

    function Model(): Book
      reads this
    {
      Book(domains, current, until, failures, healthy)
    }

    constructor ()
      ensures Model() == EMPTY
    {
      domains, current, until, failures, healthy := [], map[], map[], map[], {};
    }

    method Succeed(d: Domain)
      modifies this
      ensures Model() == ReportSuccess(old(Model()), d)
    {
      until := until - {d};
      failures := failures - {d};
      healthy := healthy + {d};
    }

    method Fail(d: Domain, now: real) returns (cooldown: nat)
      modifies this
      ensures Model() == ReportFailure(old(Model()), d, now)
      ensures until[d] == now + cooldown as real
    {
      healthy := healthy - {d};
      var count := Min((if d in failures then failures[d] else 0) + 1, BACKOFF_STEPS);
      failures := failures[d := count];
      cooldown := Min(FAILURE_COOLDOWN * Pow2(count - 1), MAX_COOLDOWN);
      until := until[d := now + cooldown as real];
    }

    method Refresh(pool: seq<Domain>, choice: map<nat, Domain>)
      modifies this
      ensures Model() == UpdateDomainsList(old(Model()), pool, choice)
    {
      if multiset(domains) == multiset(pool) { return; }
      domains := pool;
      current := choice;
      until := map d | d in until && d in pool :: until[d];
      failures := map d | d in failures && d in pool :: failures[d];
      healthy := set d | d in healthy && d in pool;
    }
  }

  /** The generator of one fallback: it goes on where it stopped, with whatever the balancer says by then. */
  class OfferSweep {
    const balancer: FrontBalancer
    const candidates: seq<Domain>
    const reserve: bool
    var index: nat
    var attempts: nat
    ghost var offers: seq<Domain>

    /** At most three offers, each from a further place of the list. */
    ghost predicate Valid()
      reads this
    {
      attempts == |offers| <= MAX_ATTEMPTS && |offers| <= index <= |candidates|
    }

    constructor (balancer: FrontBalancer, candidates: seq<Domain>, reserve: bool)
      ensures Valid() && this.balancer == balancer && this.candidates == candidates && this.reserve == reserve
      ensures offers == []
    {
      this.balancer, this.candidates, this.reserve := balancer, candidates, reserve;
      index, attempts, offers := 0, 0, [];
    }

    /** The next front that does not rest, or the end: after three offers, or when no candidate is left. */
    method Next(now: real) returns (r: Option<Domain>)
      requires Valid()
      modifies this, balancer
      ensures Valid() && index >= old(index)
      ensures r.Some? ==>
                && Enabled(old(balancer.Model()), now, Offered(r.value, reserve, now))
                && balancer.Model() == Step(old(balancer.Model()), Offered(r.value, reserve, now))
                && offers == old(offers) + [r.value]
                && old(index) < index && candidates[index - 1] == r.value
                && forall i :: old(index) <= i < index - 1 ==> Resting(old(balancer.Model()), candidates[i], now)
      ensures r.None? ==>
                && balancer.Model() == old(balancer.Model()) && offers == old(offers)
                && (|offers| == MAX_ATTEMPTS ||
                    forall i :: old(index) <= i < |candidates| ==> Resting(balancer.Model(), candidates[i], now))
    {
      while index < |candidates|
        invariant Valid() && old(index) <= index && offers == old(offers) && attempts == old(attempts)
        invariant balancer.Model() == old(balancer.Model())
        invariant forall i :: old(index) <= i < index ==> Resting(balancer.Model(), candidates[i], now)
      {
        if attempts >= MAX_ATTEMPTS { return None; }
        var d := candidates[index];
        index := index + 1;
        if d in balancer.until && balancer.until[d] > now { continue; }
        attempts := attempts + 1;
        offers := offers + [d];
        if reserve && d !in balancer.healthy {
          balancer.until := balancer.until[d := now + IN_FLIGHT_HOLD];
        }
        return Some(d);
      }
      return None;
    }
  }
}
