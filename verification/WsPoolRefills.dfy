/** What a refill of the socket pool achieves, whatever the rest of the pool does meanwhile. */
module WsPoolRefills {
  import opened Prelude
  import opened WsPool
  import opened WsPoolSafety

  // ----- Attempts by how far they have got

  datatype Kind = IsConnecting | IsConnected | IsFailed | IsTaken

  function KindOf(a: Attempt): Kind {
    match a
    case Connecting => IsConnecting
    case Connected(_) => IsConnected
    case Failed => IsFailed
    case Taken => IsTaken
  }

  function Number(attempts: seq<Attempt>, kind: Kind): nat {
    if attempts == [] then 0 else (if KindOf(attempts[0]) == kind then 1 else 0) + Number(attempts[1..], kind)
  }

  lemma {:induction false} NumberUpdate(attempts: seq<Attempt>, i: nat, a: Attempt, kind: Kind)
    requires i < |attempts|
    ensures Number(attempts[i := a], kind) ==
            Number(attempts, kind) - (if KindOf(attempts[i]) == kind then 1 else 0)
            + (if KindOf(a) == kind then 1 else 0)
    decreases |attempts|
  {
    if i > 0 {
      NumberUpdate(attempts[1..], i - 1, a, kind);
      assert attempts[i := a][1..] == attempts[1..][i - 1 := a];
    } else {
      assert attempts[i := a][1..] == attempts[1..];
    }
  }

  lemma {:induction false} NumbersAddUp(attempts: seq<Attempt>)
    ensures Number(attempts, IsConnecting) + Number(attempts, IsConnected) + Number(attempts, IsFailed)
            + Number(attempts, IsTaken) == |attempts|
  {
    if attempts != [] { NumbersAddUp(attempts[1..]); }
  }

  lemma {:induction false} NumberPositive(attempts: seq<Attempt>, kind: Kind)
    ensures Number(attempts, kind) > 0 <==> exists i :: 0 <= i < |attempts| && KindOf(attempts[i]) == kind
  {
    if attempts != [] {
      NumberPositive(attempts[1..], kind);
      if Number(attempts, kind) > 0 && KindOf(attempts[0]) != kind {
        var i :| 0 <= i < |attempts[1..]| && KindOf(attempts[1..][i]) == kind;
        assert attempts[i + 1] == attempts[1..][i];
      }
      if i :| 0 < i < |attempts| && KindOf(attempts[i]) == kind {
        assert attempts[1..][i - 1] == attempts[i];
      }
    }
  }

  lemma {:induction false} NumberFresh(n: nat)
    ensures Number(seq(n, _ => Connecting), IsConnecting) == n
  {
    if n > 0 {
      assert seq(n, _ => Connecting)[1..] == seq(n - 1, _ => Connecting);
      NumberFresh(n - 1);
    }
  }

  // ----- What the events of a run say about one refill

  function Connects(events: seq<Event>, r: nat): nat {
    if events == [] then 0
    else (if events[0].ConnectEvent? && events[0].r == r then 1 else 0) + Connects(events[1..], r)
  }

  function Failures(events: seq<Event>, r: nat): nat {
    if events == [] then 0
    else (if events[0].FailEvent? && events[0].r == r then 1 else 0) + Failures(events[1..], r)
  }

  /** When its loop took results. */
  function TakeTimes(events: seq<Event>, r: nat): seq<real> {
    if events == [] then []
    else (if events[0].TakeEvent? && events[0].r == r then [events[0].now] else []) + TakeTimes(events[1..], r)
  }

  /** Nothing else touches the idle sockets or the backoff of the refill's key. */
  predicate Apart(p: Pool, e: Event, r: nat)
    requires r in p.refills
  {
    match e
    case GetEvent(key, _, _) => key != p.refills[r].key
    case SweepEvent(key, _, _) => key != p.refills[r].key
    case TakeEvent(other, _, _) => other == r || (other in p.refills && p.refills[other].key != p.refills[r].key)
    case FinishEvent(other) => other != r
    case ResetEvent => false
    case _ => true
  }

  ghost predicate Undisturbed(p: Pool, events: seq<Event>, r: nat)
    requires IsRun(p, events)
    decreases |events|
  {
    events == [] || (r in p.refills && Apart(p, events[0], r) && Undisturbed(Step(p, events[0]), events[1..], r))
  }

  // ----- A refill begins

  /** How long a key is left alone after so many refills in a row that connected nothing. */
  function Delay(failures: nat): real
    requires failures >= 1
  {
    ([1, 2, 4, 8, 16, 32, 64, 128, 256, 512, 1024, 2048, 3600][Min(failures - 1, 12)]) as real
  }

  lemma DelayIsBackoff(failures: nat)
    requires failures >= 1
    ensures Backoff(failures) == Delay(failures)
  {
    assert Pow2(0) == 1 && Pow2(1) == 2 && Pow2(2) == 4 && Pow2(3) == 8 && Pow2(4) == 16 && Pow2(5) == 32;
    assert Pow2(6) == 64 && Pow2(7) == 128 && Pow2(8) == 256 && Pow2(9) == 512 && Pow2(10) == 1024;
    assert Pow2(11) == 2048 && Pow2(12) == 4096;
  }

  /** The idle sockets of a key; none if it has no deque yet. */
  function IdleOf(p: Pool, key: Key): seq<Entry> {
    if key in p.idle && p.idle[key] in p.deques then p.deques[p.idle[key]] else []
  }

  function FailureCount(p: Pool, key: Key): nat {
    if key in p.failures then p.failures[key] else 0
  }

  predicate SameBackoff(p: Pool, p': Pool, key: Key) {
    && (key in p'.failures <==> key in p.failures) && (key in p.failures ==> p'.failures[key] == p.failures[key])
    && (key in p'.after <==> key in p.after) && (key in p.after ==> p'.after[key] == p.after[key])
  }

  /**
    A refill that is told to begin dials exactly the sockets that are missing, all at once; if none is, it ends and
    the key may be refilled again.
  */
  lemma RefillDials(p: Pool, r: nat)
    requires Inv(p) && Enabled(p, BeginEvent(r)) && Registered(p, r)
    ensures Linked(p)
    ensures
      var p', key, have := Step(p, BeginEvent(r)), p.refills[r].key, |IdleOf(p, p.refills[r].key)|;
      && IdleOf(p', key) == IdleOf(p, key) && SameBackoff(p, p', key)
      && if have < p.size then
           && r in p'.refills && Registered(p', r) && p'.refills[r].phase == Filling
           && p'.refills[r].attempts == seq(p.size - have, _ => Connecting)
         else r !in p'.refills && key !in p'.refilling
  {
    InvLinks(p);
    EnsureBucketIdle(p, p.refills[r].key);
    hide Inv, EnsureBucket;
  }

  lemma EnsureBucketIdle(p: Pool, key: Key)
    requires Linked(p)
    ensures
      var p' := EnsureBucket(p, key);
      && IdleOf(p', key) == IdleOf(p, key) && SameBackoff(p, p', key)
      && key in p'.idle && p'.idle[key] in p'.deques
      && p'.refilling == p.refilling && p'.refills == p.refills && p'.size == p.size
  {}

  // ----- And goes on

  /** What a refill has done so far: entries adopted, attempts ended either way, and when results were taken. */
  datatype Progress = Progress(added: seq<Entry>, connects: nat, failures: nat, times: seq<real>)

  function Advance(p: Pool, e: Event, r: nat, g: Progress): Progress
    requires Enabled(p, e)
  {
    match e
    case ConnectEvent(x, _) => if x == r then g.(connects := g.connects + 1) else g
    case FailEvent(x, _) => if x == r then g.(failures := g.failures + 1) else g
    case TakeEvent(x, i, now) =>
      if x != r then g
      else
        var a := p.refills[r].attempts[i];
        g.(times := g.times + [now], added := if a.Connected? then g.added + [Entry(a.ws, now)] else g.added)
    case _ => g
  }

  predicate Counted(size: nat, f: Refill, before: seq<Entry>, g: Progress) {
    CountedSoFar(size, f, before, g) && f.phase == (if |g.times| == |f.attempts| then Cleaning else Filling)
  }

  predicate CountedSoFar(size: nat, f: Refill, before: seq<Entry>, g: Progress) {
    && |f.attempts| == size - |before| > 0
    && f.connected == |g.added|
    && g.connects == |g.added| + Number(f.attempts, IsConnected)
    && |g.times| == Number(f.attempts, IsTaken)
    && |g.times| == |g.added| + (g.failures - Number(f.attempts, IsFailed))
    && (forall e <- g.added :: e.created in g.times)
  }

  predicate Placed(p: Pool, r: nat, q: seq<Entry>) {
    && r in p.refills && Registered(p, r) && p.refills[r].phase != Scheduled
    && p.refills[r].key in p.idle && p.idle[p.refills[r].key] == p.refills[r].bucket
    && p.refills[r].bucket in p.deques && p.deques[p.refills[r].bucket] == q
  }

  /** How the backoff of the key compares to what it was when the refill began. */
  predicate Settled(p0: Pool, p: Pool, key: Key, needed: nat, g: Progress) {
    if |g.times| < needed || g.times == [] then SameBackoff(p0, p, key)
    else if g.added != [] then key !in p.failures && key !in p.after
    else
      && key in p.failures && p.failures[key] == FailureCount(p0, key) + 1
      && key in p.after && p.after[key] == g.times[|g.times| - 1] + Delay(FailureCount(p0, key) + 1)
  }

  ghost predicate OnTrack(p0: Pool, p: Pool, r: nat, before: seq<Entry>, g: Progress) {
    && r in p0.refills && Placed(p, r, before + g.added)
    && p.refills[r].key == p0.refills[r].key && p.size == p0.size
    && Counted(p.size, p.refills[r], before, g)
    && Settled(p0, p, p.refills[r].key, |p.refills[r].attempts|, g)
  }

  /** A refill at work, its registration, its deque and the backoff of its key are as they were. */
  predicate Untouched(p: Pool, p': Pool, r: nat)
    requires r in p.refills
  {
    var f := p.refills[r];
    && r in p'.refills && p'.refills[r] == f && p'.size == p.size && p'.next >= p.next
    && f.key in p'.refilling && p'.refilling[f.key] == r
    && f.key in p'.idle && p'.idle[f.key] == f.bucket
    && f.bucket in p'.deques && f.bucket in p.deques && p'.deques[f.bucket] == p.deques[f.bucket]
    && SameBackoff(p, p', f.key)
  }

  /** What makes the steps of others harmless. */
  predicate AtWork(p: Pool, r: nat) {
    && r in p.refills && Registered(p, r) && r < p.next
    && var f := p.refills[r];
       && f.key in p.idle && p.idle[f.key] == f.bucket && f.bucket in p.deques && f.bucket < p.next
       && (forall k <- p.idle :: k != f.key ==> p.idle[k] != f.bucket)
  }

  lemma EnsureBucketApart(p: Pool, key: Key, r: nat)
    requires AtWork(p, r) && (key in p.idle ==> p.idle[key] in p.deques)
    ensures
      var p' := EnsureBucket(p, key);
      Untouched(p, p', r) && AtWork(p', r) && key in p'.idle && p'.idle[key] in p'.deques
  {}

  lemma ScheduleRefillApart(p: Pool, key: Key, now: real, r: nat)
    requires AtWork(p, r)
    ensures Untouched(p, ScheduleRefill(p, key, now), r)
  {}

  lemma ClosingApart(p: Pool, key: Key, q: seq<Entry>, out: set<nat>, r: nat)
    requires AtWork(p, r) && key in p.idle && key != p.refills[r].key
    ensures Untouched(p, Closing(p, key, q, out), r) && AtWork(Closing(p, key, q, out), r)
  {}

  lemma HandOutApart(p: Pool, key: Key, r: nat)
    requires AtWork(p, r) && key in p.idle && p.idle[key] in p.deques && p.deques[p.idle[key]] != []
    requires key != p.refills[r].key
    ensures Untouched(p, HandOut(p, key), r) && AtWork(HandOut(p, key), r)
  {}

  lemma GetApart(p: Pool, key: Key, now: real, dead: set<nat>, r: nat)
    requires AtWork(p, r) && (key in p.idle ==> p.idle[key] in p.deques) && key != p.refills[r].key
    ensures Untouched(p, Get(p, key, now, dead).1, r)
  {
    hide AtWork, EnsureBucket, Closing, HandOut, ScheduleRefill, StaleFront, Sockets;
    if p.size == 0 {
      StaysPut(p, r);
    } else {
      EnsureBucketApart(p, key, r);
      var p1 := EnsureBucket(p, key);
      var q := p1.deques[p1.idle[key]];
      var n := StaleFront(q, now, dead);
      ClosingApart(p1, key, q[n..], Sockets(q[..n]), r);
      var p2 := Closing(p1, key, q[n..], Sockets(q[..n]));
      if n == |q| {
        ScheduleRefillApart(p2, key, now, r);
      } else {
        ClosingHolds(p1, key, q[n..], Sockets(q[..n]));
        HandOutApart(p2, key, r);
        ScheduleRefillApart(HandOut(p2, key), key, now, r);
      }
    }
  }

  lemma StaysPut(p: Pool, r: nat)
    requires AtWork(p, r)
    ensures Untouched(p, p, r)
  {}

  lemma ClosingHolds(p: Pool, key: Key, q: seq<Entry>, out: set<nat>)
    requires key in p.idle
    ensures
      var p' := Closing(p, key, q, out);
      key in p'.idle && p'.idle[key] in p'.deques && p'.deques[p'.idle[key]] == q
  {}

  lemma SweepApart(p: Pool, key: Key, now: real, dead: set<nat>, r: nat)
    requires AtWork(p, r) && (key in p.idle ==> p.idle[key] in p.deques) && key != p.refills[r].key
    ensures Untouched(p, Sweep(p, key, now, dead), r)
  {
    hide AtWork, EnsureBucket, Closing, ScheduleRefill, Ready, Expired;
    if p.size == 0 {
      StaysPut(p, r);
    } else {
      EnsureBucketApart(p, key, r);
      var p1 := EnsureBucket(p, key);
      var q := p1.deques[p1.idle[key]];
      ClosingApart(p1, key, Ready(q, now, dead), Expired(q, now, dead), r);
      ScheduleRefillApart(Closing(p1, key, Ready(q, now, dead), Expired(q, now, dead)), key, now, r);
    }
  }

  lemma BeginApart(p: Pool, other: nat, r: nat)
    requires AtWork(p, r) && other in p.refills && other != r
    requires p.refills[other].key in p.idle ==> p.idle[p.refills[other].key] in p.deques
    ensures Untouched(p, Begin(p, other), r)
  {
    EnsureBucketApart(p, p.refills[other].key, r);
    hide EnsureBucket;
  }

  lemma TakeApart(p: Pool, other: nat, i: nat, now: real, r: nat)
    requires AtWork(p, r) && other in p.refills && other != r && i < |p.refills[other].attempts|
    requires p.refills[other].key != p.refills[r].key && p.refills[other].bucket in p.deques
    requires Registered(p, other) ==> p.refills[other].key in p.idle
                                      && p.idle[p.refills[other].key] == p.refills[other].bucket
    ensures Untouched(p, Take(p, other, i, now), r)
  {
    hide Settle;
    if p.refills[other].attempts[i].Connected? {
      if Registered(p, other) { SettleApart(Adopt(p, other, i, now), other, now, r); }
    } else {
      SettleApart(WithAttempt(p, other, i, Taken), other, now, r);
    }
  }

  lemma SettleApart(p: Pool, other: nat, now: real, r: nat)
    requires AtWork(p, r) && other in p.refills && other != r && p.refills[other].key != p.refills[r].key
    ensures Untouched(p, Settle(p, other, now), r)
  {}

  /** Steps of others leave the refill, its deque and its backoff alone. */
  lemma OthersStayApart(p: Pool, e: Event, r: nat)
    requires Inv(p) && Linked(p) && Enabled(p, e) && r in p.refills && p.refills[r].phase != Scheduled
    requires Registered(p, r) && Apart(p, e, r)
    requires !(e.ConnectEvent? || e.FailEvent? || e.TakeEvent? || e.CloseEvent?) || e.r != r
    ensures Untouched(p, Step(p, e), r)
  {
    InvAtWork(p, r);
    if e.TakeEvent? { InvRegistered(p, e.r); }
    hide Inv, AtWork, Untouched, Get, Sweep, Begin, Take, Linked;
    match e
    case GetEvent(key, now, dead) => InvLinks(p); GetApart(p, key, now, dead, r);
    case SweepEvent(key, now, dead) => InvLinks(p); SweepApart(p, key, now, dead, r);
    case ScheduleEvent(key, now) => ScheduleRefillApart(p, key, now, r);
    case BeginEvent(other) => InvLinks(p); BeginApart(p, other, r);
    case TakeEvent(other, i, now) => TakeApart(p, other, i, now, r);
    case _ => SmallStepApart(p, e, r);
  }

  lemma SmallStepApart(p: Pool, e: Event, r: nat)
    requires AtWork(p, r) && Linked(p) && Enabled(p, e) && Apart(p, e, r)
    requires e.ConnectEvent? || e.FailEvent? || e.CloseEvent? || e.CancelEvent? || e.FinishEvent?
    requires e.r != r || e.CancelEvent?
    ensures Untouched(p, Step(p, e), r)
  {}

  lemma InvAtWork(p: Pool, r: nat)
    requires Inv(p) && r in p.refills && Registered(p, r) && p.refills[r].phase != Scheduled
    ensures AtWork(p, r)
  {}

  lemma InvRegistered(p: Pool, r: nat)
    requires Inv(p) && r in p.refills && p.refills[r].phase != Scheduled
    ensures Linked(p) && p.refills[r].bucket in p.deques
    ensures Registered(p, r) ==> p.refills[r].key in p.idle && p.idle[p.refills[r].key] == p.refills[r].bucket
  {}

  // ----- Its own steps

  lemma NumbersUpdate(attempts: seq<Attempt>, i: nat, a: Attempt)
    requires i < |attempts|
    ensures forall kind ::
      Number(attempts[i := a], kind) ==
        Number(attempts, kind) - (if KindOf(attempts[i]) == kind then 1 else 0) + (if KindOf(a) == kind then 1 else 0)
  {
    forall kind
      ensures Number(attempts[i := a], kind) ==
        Number(attempts, kind) - (if KindOf(attempts[i]) == kind then 1 else 0) + (if KindOf(a) == kind then 1 else 0)
    {
      NumberUpdate(attempts, i, a, kind);
    }
  }

  lemma ConnectAdvances(p0: Pool, p: Pool, r: nat, i: nat, before: seq<Entry>, g: Progress)
    requires OnTrack(p0, p, r, before, g) && Enabled(p, ConnectEvent(r, i))
    ensures OnTrack(p0, Connect(p, r, i), r, before, g.(connects := g.connects + 1))
    ensures Connect(p, r, i).size == p.size
  {
    NumbersUpdate(p.refills[r].attempts, i, Connected(p.next));
  }

  lemma FailAdvances(p0: Pool, p: Pool, r: nat, i: nat, before: seq<Entry>, g: Progress)
    requires OnTrack(p0, p, r, before, g) && Enabled(p, FailEvent(r, i))
    ensures OnTrack(p0, WithAttempt(p, r, i, Failed), r, before, g.(failures := g.failures + 1))
  {
    NumbersUpdate(p.refills[r].attempts, i, Failed);
  }

  lemma AllTaken(attempts: seq<Attempt>)
    ensures Number(attempts, IsTaken) == |attempts| <==>
            !exists i :: 0 <= i < |attempts| && !attempts[i].Taken?
  {
    NumbersAddUp(attempts);
    NumberPositive(attempts, IsConnecting);
    NumberPositive(attempts, IsConnected);
    NumberPositive(attempts, IsFailed);
  }

  lemma AdoptAdvances(p0: Pool, p: Pool, r: nat, i: nat, now: real, before: seq<Entry>, g: Progress)
    requires OnTrack(p0, p, r, before, g) && Enabled(p, TakeEvent(r, i, now)) && p.refills[r].attempts[i].Connected?
    ensures
      var e, p' := Entry(p.refills[r].attempts[i].ws, now), Adopt(p, r, i, now);
      var g' := g.(times := g.times + [now], added := g.added + [e]);
      && Placed(p', r, before + g'.added) && p'.size == p.size && p'.refills[r].key == p.refills[r].key
      && p'.refills[r].attempts == p.refills[r].attempts[i := Taken]
      && CountedSoFar(p'.size, p'.refills[r], before, g')
      && SameBackoff(p0, p', p'.refills[r].key) && p'.refills[r].phase == Filling
  {
    var f := p.refills[r];
    NumbersAddUp(f.attempts);
    NumbersUpdate(f.attempts, i, Taken);
    assert before + g.added + [Entry(f.attempts[i].ws, now)] == before + (g.added + [Entry(f.attempts[i].ws, now)]);
  }

  lemma MissAdvances(p0: Pool, p: Pool, r: nat, i: nat, now: real, before: seq<Entry>, g: Progress)
    requires OnTrack(p0, p, r, before, g) && Enabled(p, TakeEvent(r, i, now)) && p.refills[r].attempts[i].Failed?
    ensures
      var p', g' := WithAttempt(p, r, i, Taken), g.(times := g.times + [now]);
      && Placed(p', r, before + g'.added) && p'.size == p.size && p'.refills[r].key == p.refills[r].key
      && p'.refills[r].attempts == p.refills[r].attempts[i := Taken]
      && CountedSoFar(p'.size, p'.refills[r], before, g')
      && SameBackoff(p0, p', p'.refills[r].key) && p'.refills[r].phase == Filling
  {
    NumbersAddUp(p.refills[r].attempts);
    NumbersUpdate(p.refills[r].attempts, i, Taken);
  }

  lemma SettleAdvances(p0: Pool, p: Pool, r: nat, now: real, before: seq<Entry>, g: Progress)
    requires Placed(p, r, before + g.added) && p.refills[r].phase == Filling
    requires r in p0.refills && p.refills[r].key == p0.refills[r].key && p.size == p0.size
    requires CountedSoFar(p.size, p.refills[r], before, g) && SameBackoff(p0, p, p.refills[r].key)
    requires g.times != [] && g.times[|g.times| - 1] == now
    ensures OnTrack(p0, Settle(p, r, now), r, before, g) && Settle(p, r, now).size == p.size
  {
    NumbersAddUp(p.refills[r].attempts);
    AllTaken(p.refills[r].attempts);
    DelayIsBackoff(FailureCount(p0, p.refills[r].key) + 1);
    hide Number, Backoff, Delay;
  }

  lemma TakeAdvances(p0: Pool, p: Pool, r: nat, i: nat, now: real, before: seq<Entry>, g: Progress)
    requires OnTrack(p0, p, r, before, g) && Enabled(p, TakeEvent(r, i, now))
    ensures OnTrack(p0, Take(p, r, i, now), r, before, Advance(p, TakeEvent(r, i, now), r, g))
    ensures Take(p, r, i, now).size == p.size
  {
    var g' := Advance(p, TakeEvent(r, i, now), r, g);
    assert Placed(p, r, before + g.added);
    if p.refills[r].attempts[i].Connected? {
      AdoptAdvances(p0, p, r, i, now, before, g);
      hide OnTrack, CountedSoFar, SameBackoff, Settle, Adopt;
      SettleAdvances(p0, Adopt(p, r, i, now), r, now, before, g');
    } else {
      MissAdvances(p0, p, r, i, now, before, g);
      hide OnTrack, CountedSoFar, SameBackoff, Settle, WithAttempt;
      SettleAdvances(p0, WithAttempt(p, r, i, Taken), r, now, before, g');
    }
  }

  lemma UntouchedStays(p0: Pool, p: Pool, p': Pool, r: nat, before: seq<Entry>, g: Progress)
    requires OnTrack(p0, p, r, before, g) && Untouched(p, p', r)
    ensures OnTrack(p0, p', r, before, g)
  {
    hide Counted;
  }

  lemma OwnStepAdvances(p0: Pool, p: Pool, e: Event, r: nat, before: seq<Entry>, g: Progress)
    requires Linked(p) && Enabled(p, e) && OnTrack(p0, p, r, before, g)
    requires (e.ConnectEvent? || e.FailEvent? || e.TakeEvent? || e.CloseEvent?) && e.r == r
    ensures OnTrack(p0, Step(p, e), r, before, Advance(p, e, r, g)) && Step(p, e).size == p.size
  {
    hide OnTrack, Connect, Take, CloseOne, Get, Sweep, Begin, Reset, Linked;
    match e
    case ConnectEvent(_, i) => ConnectAdvances(p0, p, r, i, before, g);
    case FailEvent(_, i) => FailAdvances(p0, p, r, i, before, g);
    case TakeEvent(_, i, now) => TakeAdvances(p0, p, r, i, now, before, g);
    case CloseEvent(_, i) => NothingToClose(p0, p, r, i, before, g);
  }

  lemma StepAdvances(p0: Pool, p: Pool, e: Event, r: nat, before: seq<Entry>, g: Progress)
    requires Inv(p) && Linked(p) && Enabled(p, e) && OnTrack(p0, p, r, before, g) && Apart(p, e, r)
    ensures OnTrack(p0, Step(p, e), r, before, Advance(p, e, r, g)) && Step(p, e).size == p.size
  {
    hide Inv, Step, Linked, Enabled;
    if (e.ConnectEvent? || e.FailEvent? || e.TakeEvent? || e.CloseEvent?) && e.r == r {
      OwnStepAdvances(p0, p, e, r, before, g);
    } else {
      OthersStayApart(p, e, r);
      UntouchedStays(p0, p, Step(p, e), r, before, g);
    }
  }

  /** A registered refill that has taken every result has nothing left to close. */
  lemma NothingToClose(p0: Pool, p: Pool, r: nat, i: nat, before: seq<Entry>, g: Progress)
    requires OnTrack(p0, p, r, before, g)
    ensures !Enabled(p, CloseEvent(r, i))
  {
    AllTaken(p.refills[r].attempts);
  }

  // ----- To its end

  function Advanced(p: Pool, events: seq<Event>, r: nat, g: Progress): Progress
    requires IsRun(p, events)
    decreases |events|
  {
    if events == [] then g else Advanced(Step(p, events[0]), events[1..], r, Advance(p, events[0], r, g))
  }

  lemma {:induction false} RunAdvances(p0: Pool, p: Pool, events: seq<Event>, r: nat, before: seq<Entry>, g: Progress)
    requires Inv(p) && IsRun(p, events) && Undisturbed(p, events, r) && OnTrack(p0, p, r, before, g)
    ensures OnTrack(p0, After(p, events), r, before, Advanced(p, events, r, g)) && After(p, events).size == p.size
    decreases |events|
  {
    hide Inv, Step, Enabled, Linked, OnTrack, Apart, Advance;
    if events != [] {
      StepKeeps(p, events[0]);
      StepAdvances(p0, p, events[0], r, before, g);
      RunAdvances(p0, Step(p, events[0]), events[1..], r, before, Advance(p, events[0], r, g));
    }
  }

  /** The progress is what the events say. */
  lemma {:induction false} AdvancedIsTold(p: Pool, events: seq<Event>, r: nat, g: Progress)
    requires IsRun(p, events)
    ensures
      var g' := Advanced(p, events, r, g);
      && g'.connects == g.connects + Connects(events, r) && g'.failures == g.failures + Failures(events, r)
      && g'.times == g.times + TakeTimes(events, r)
    decreases |events|
  {
    hide Step, Enabled, Linked;
    if events != [] {
      AdvancedIsTold(Step(p, events[0]), events[1..], r, Advance(p, events[0], r, g));
    }
  }

  lemma TrackStarts(p: Pool, r: nat)
    requires Inv(p) && Linked(p) && Enabled(p, BeginEvent(r)) && Registered(p, r)
    requires |IdleOf(p, p.refills[r].key)| < p.size
    ensures OnTrack(p, Step(p, BeginEvent(r)), r, IdleOf(p, p.refills[r].key), Progress([], 0, 0, []))
  {
    hide Inv, Step, Number, IdleOf;
    var p1, before := Step(p, BeginEvent(r)), IdleOf(p, p.refills[r].key);
    RefillDials(p, r);
    StepKeeps(p, BeginEvent(r));
    BeginFills(p, r);
    NumberFresh(p.size - |before|);
    NumbersAddUp(p1.refills[r].attempts);
    assert before + [] == before;
  }

  lemma BeginFills(p: Pool, r: nat)
    requires Inv(p) && Linked(p) && Enabled(p, BeginEvent(r)) && |IdleOf(p, p.refills[r].key)| < p.size
    ensures
      var p', key := Step(p, BeginEvent(r)), p.refills[r].key;
      && r in p'.refills && p'.refills[r].key == key && p'.refills[r].connected == 0
      && key in p'.idle && p'.idle[key] == p'.refills[r].bucket && p'.refills[r].bucket in p'.deques
      && p'.deques[p'.refills[r].bucket] == IdleOf(p', key) && p'.size == p.size
  {
    EnsureBucketIdle(p, p.refills[r].key);
    hide Numbered, Registry, Room, IdleHomes, EndHomes, EnsureBucket;
  }

  /**
    A refill from its first step on, however its attempts end and whatever happens to other keys meanwhile: it adopts
    what connects, never more than is missing. Once it has taken as many results as were missing, every connected
    socket is idle behind those that were there, and the key is open for further refills at once, or if nothing
    connected after a delay that doubles from one second up to an hour.
  */
  lemma RefillOutcome(p: Pool, r: nat, events: seq<Event>)
    requires Inv(p) && Linked(p) && Enabled(p, BeginEvent(r)) && Registered(p, r)
    requires |IdleOf(p, p.refills[r].key)| < p.size
    requires IsRun(Step(p, BeginEvent(r)), events) && Undisturbed(Step(p, BeginEvent(r)), events, r)
    ensures
      var key, p' := p.refills[r].key, After(Step(p, BeginEvent(r)), events);
      var before, idle, times := IdleOf(p, key), IdleOf(p', key), TakeTimes(events, r);
      var missing, connects, failures := p.size - |before|, Connects(events, r), Failures(events, r);
      && before <= idle && |idle| - |before| <= connects && connects + failures <= missing && |times| <= missing
      && (forall e <- idle[|before|..] :: e.created in times)
      && r in p'.refills && Registered(p', r)
      && if |times| < missing then SameBackoff(p, p', key) && Waits(p', r)
         else
           && |idle| == |before| + connects && connects + failures == missing
           && Enabled(p', FinishEvent(r))
           && if connects > 0 then key !in p'.failures && key !in p'.after
              else
                && key in p'.failures && p'.failures[key] == FailureCount(p, key) + 1
                && key in p'.after && p'.after[key] == times[missing - 1] + Delay(FailureCount(p, key) + 1)
  {
    hide IdleOf, SameBackoff, Delay, Waits;
    var key, p1 := p.refills[r].key, Step(p, BeginEvent(r));
    var before, g := IdleOf(p, key), Progress([], 0, 0, []);
    TrackStarts(p, r);
    StepKeeps(p, BeginEvent(r));
    hide Step, Enabled, OnTrack;
    RunAdvances(p, p1, events, r, before, g);
    AdvancedIsTold(p1, events, r, g);
    hide Inv;
    TrackMeans(p, After(p1, events), r, before, Advanced(p1, events, r, g));
  }

  /** An attempt is still to end, or its result to be taken. */
  ghost predicate Waits(p: Pool, r: nat) {
    exists i: nat :: Enabled(p, ConnectEvent(r, i)) || Enabled(p, TakeEvent(r, i, 0.0))
  }

  lemma TrackMeans(p0: Pool, p: Pool, r: nat, before: seq<Entry>, g: Progress)
    requires OnTrack(p0, p, r, before, g)
    ensures
      var key, idle, missing := p0.refills[r].key, IdleOf(p, p0.refills[r].key), p0.size - |before|;
      && idle == before + g.added && idle[|before|..] == g.added
      && |g.added| <= g.connects && g.connects + g.failures <= missing && |g.times| <= missing
      && r in p.refills && Registered(p, r)
      && (|g.times| < missing ==> SameBackoff(p0, p, key) && Waits(p, r))
      && (|g.times| == missing ==>
            && |g.added| == g.connects && g.connects + g.failures == missing && Enabled(p, FinishEvent(r))
            && Settled(p0, p, key, missing, g))
  {
    var attempts := p.refills[r].attempts;
    NumbersAddUp(attempts);
    AllTaken(attempts);
    if |g.times| == |attempts| {
      forall a <- attempts
        ensures a.Taken?
      {
        var i :| 0 <= i < |attempts| && attempts[i] == a;
      }
    } else {
      var i: nat :| i < |attempts| && !attempts[i].Taken?;
      assert Enabled(p, ConnectEvent(r, i)) || Enabled(p, TakeEvent(r, i, 0.0));
    }
  }
}
