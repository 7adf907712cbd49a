/** `_WsPool` (proxy/pool.py): who owns each connected socket, over every interleaving of its tasks. */
module WsPool {
  import opened Prelude

  const WS_POOL_MAX_AGE := 120.0
  const REFILL_BACKOFF_INITIAL := 1.0
  const REFILL_BACKOFF_MAX := 3600.0

  /** Keys, sockets, deques and tasks are numbered; numbers are never used twice. */
  type Key = nat

  datatype Entry = Entry(ws: nat, created: real)

  /** One task of a refill: taken once its result is adopted, found wanting, or closed. */
  datatype Attempt = Connecting | Connected(ws: nat) | Failed | Taken

  datatype Phase = Scheduled | Filling | Cleaning

  /** A refill task: the deque object it fetched when it began, and its attempts. */
  datatype Refill = Refill(key: Key, phase: Phase, bucket: nat, attempts: seq<Attempt>, connected: nat)

  /** Where a socket is; written by every step and read by none. */
  datatype Home = Attempted(refill: nat, index: nat) | Idle(key: Key) | Handed | Closed

  datatype Pool = Pool(
    size: nat,
    idle: map<Key, nat>,
    deques: map<nat, seq<Entry>>,
    refilling: map<Key, nat>,
    failures: map<Key, nat>,
    after: map<Key, real>,
    refills: map<nat, Refill>,
    handed: seq<nat>,
    closed: set<nat>,
    home: map<nat, Home>,
    next: nat
  )

  function Start(size: nat): Pool {
    Pool(size, map[], map[], map[], map[], map[], map[], [], {}, map[], 0)
  }

  // ----- Pieces of the operations

  /** `_is_stale`; `dead` are the sockets whose transport has closed or failed by now. */
  predicate Stale(e: Entry, now: real, dead: set<nat>) {
    now - e.created >= WS_POOL_MAX_AGE || e.ws in dead
  }

  function Sockets(q: seq<Entry>): set<nat> {
    set e | e in q :: e.ws
  }

  function Moved(home: map<nat, Home>, sockets: set<nat>, to: Home): map<nat, Home> {
    map ws | ws in home :: if ws in sockets then to else home[ws]
  }

  /** `self._idle.setdefault(key, deque())`. */
  function EnsureBucket(p: Pool, key: Key): Pool {
    if key in p.idle then p
    else p.(idle := p.idle[key := p.next], deques := p.deques[p.next := []], next := p.next + 1)
  }

  /** `_schedule_refill`, its call to the rotation left open. */
  function ScheduleRefill(p: Pool, key: Key, now: real): Pool {
    if p.size == 0 || key in p.refilling || (key in p.after && now < p.after[key]) then p
    else
      p.(refilling := p.refilling[key := p.next],
         refills := p.refills[p.next := Refill(key, Scheduled, 0, [], 0)],
         next := p.next + 1)
  }

  /** How many entries at the front are stale. */
  function StaleFront(q: seq<Entry>, now: real, dead: set<nat>): (n: nat)
    ensures n <= |q| && (forall i :: 0 <= i < n ==> Stale(q[i], now, dead)) && (n < |q| ==> !Stale(q[n], now, dead))
  {
    if q == [] || !Stale(q[0], now, dead) then 0 else 1 + StaleFront(q[1..], now, dead)
  }

  function Closing(p: Pool, key: Key, q: seq<Entry>, out: set<nat>): Pool
    requires key in p.idle
  {
    p.(deques := p.deques[p.idle[key] := q], closed := p.closed + out, home := Moved(p.home, out, Closed))
  }

  function HandOut(p: Pool, key: Key): Pool
    requires key in p.idle && p.idle[key] in p.deques && p.deques[p.idle[key]] != []
  {
    var q := p.deques[p.idle[key]];
    p.(deques := p.deques[p.idle[key] := q[1..]], handed := p.handed + [q[0].ws], home := p.home[q[0].ws := Handed])
  }

  /** `get` for a DC with a redirect. */
  function Get(p: Pool, key: Key, now: real, dead: set<nat>): (Option<nat>, Pool)
    requires key in p.idle ==> p.idle[key] in p.deques
  {
    if p.size == 0 then (None, p)
    else
      var p1 := EnsureBucket(p, key);
      var q := p1.deques[p1.idle[key]];
      var n := StaleFront(q, now, dead);
      var p2 := Closing(p1, key, q[n..], Sockets(q[..n]));
      if n == |q| then (None, ScheduleRefill(p2, key, now))
      else (Some(q[n].ws), ScheduleRefill(HandOut(p2, key), key, now))
  }

  function Ready(q: seq<Entry>, now: real, dead: set<nat>): (r: seq<Entry>)
    ensures |r| <= |q| && (forall e <- r :: e in q && !Stale(e, now, dead))
    ensures forall e <- q :: e in r || Stale(e, now, dead)
  {
    if q == [] then []
    else (if Stale(q[0], now, dead) then [] else [q[0]]) + Ready(q[1..], now, dead)
  }

  function Expired(q: seq<Entry>, now: real, dead: set<nat>): set<nat> {
    set e | e in q && Stale(e, now, dead) :: e.ws
  }

  /** One round of `_rotate`. */
  function Sweep(p: Pool, key: Key, now: real, dead: set<nat>): Pool
    requires key in p.idle ==> p.idle[key] in p.deques
  {
    if p.size == 0 then p
    else
      var p1 := EnsureBucket(p, key);
      var q := p1.deques[p1.idle[key]];
      var ready := Ready(q, now, dead);
      var p2 := Closing(p1, key, ready, Expired(q, now, dead));
      if |ready| < p.size then ScheduleRefill(p2, key, now) else p2
  }

  predicate Registered(p: Pool, r: nat)
    requires r in p.refills
  {
    p.refills[r].key in p.refilling && p.refilling[p.refills[r].key] == r
  }

  /** The end of a refill: it gives up its registration, if it still has one. */
  function Finish(p: Pool, r: nat): Pool
    requires r in p.refills
  {
    p.(refilling := if Registered(p, r) then p.refilling - {p.refills[r].key} else p.refilling,
        refills := p.refills - {r})
  }

  function Fill(p: Pool, r: nat, needed: nat): Pool
    requires r in p.refills && p.refills[r].key in p.idle
  {
    var f := p.refills[r];
    p.(refills := p.refills[r := f.(phase := Filling, bucket := p.idle[f.key],
                                         attempts := seq(needed, _ => Connecting))])
  }

  /** A refill task's first step. */
  function Begin(p: Pool, r: nat): Pool
    requires r in p.refills
    requires p.refills[r].key in p.idle ==> p.idle[p.refills[r].key] in p.deques
  {
    var f := p.refills[r];
    var p1 := EnsureBucket(p, f.key);
    var bucket := p1.idle[f.key];
    var needed := p.size - |p1.deques[bucket]|;
    if needed <= 0 then Finish(p1, r) else Fill(p1, r, needed)
  }

  function WithAttempt(p: Pool, r: nat, i: nat, a: Attempt): Pool
    requires r in p.refills && i < |p.refills[r].attempts|
  {
    p.(refills := p.refills[r := p.refills[r].(attempts := p.refills[r].attempts[i := a])])
  }

  /** `_connect_one` returns a socket. */
  function Connect(p: Pool, r: nat, i: nat): Pool
    requires r in p.refills && i < |p.refills[r].attempts|
  {
    var p1 := WithAttempt(p, r, i, Connected(p.next));
    p1.(home := p.home[p.next := Attempted(r, i)], next := p.next + 1)
  }

  function WithPhase(p: Pool, r: nat, phase: Phase): Pool
    requires r in p.refills
  {
    p.(refills := p.refills[r := p.refills[r].(phase := phase)])
  }

  function Backoff(failures: nat): real
    requires failures >= 1
  {
    var delay := REFILL_BACKOFF_INITIAL * Pow2(Min(failures - 1, 12)) as real;
    if delay <= REFILL_BACKOFF_MAX then delay else REFILL_BACKOFF_MAX
  }

  /** Once every result is in: the backoff bookkeeping, then the clean-up. */
  function Settle(p: Pool, r: nat, now: real): Pool
    requires r in p.refills
  {
    var f := p.refills[r];
    if exists i :: 0 <= i < |f.attempts| && !f.attempts[i].Taken? then p
    else if f.connected > 0 then
      WithPhase(p.(failures := p.failures - {f.key}, after := p.after - {f.key}), r, Cleaning)
    else
      var failures := (if f.key in p.failures then p.failures[f.key] else 0) + 1;
      WithPhase(p.(failures := p.failures[f.key := failures], after := p.after[f.key := now + Backoff(failures)]),
                r, Cleaning)
  }

  function Adopt(p: Pool, r: nat, i: nat, now: real): Pool
    requires r in p.refills && i < |p.refills[r].attempts| && p.refills[r].attempts[i].Connected?
    requires p.refills[r].bucket in p.deques
  {
    var f := p.refills[r];
    var ws := f.attempts[i].ws;
    p.(deques := p.deques[f.bucket := p.deques[f.bucket] + [Entry(ws, now)]],
       refills := p.refills[r := f.(attempts := f.attempts[i := Taken], connected := f.connected + 1)],
       home := p.home[ws := Idle(f.key)])
  }

  /** The loop of `_refill` takes a result. */
  function Take(p: Pool, r: nat, i: nat, now: real): Pool
    requires r in p.refills && i < |p.refills[r].attempts| && p.refills[r].bucket in p.deques
  {
    var f := p.refills[r];
    match f.attempts[i]
    case Connected(ws) =>
      if !Registered(p, r) then WithPhase(p, r, Cleaning) else Settle(Adopt(p, r, i, now), r, now)
    case _ => Settle(WithAttempt(p, r, i, Taken), r, now)
  }

  /** The clean-up closes a socket that was not adopted. */
  function CloseOne(p: Pool, r: nat, i: nat): Pool
    requires r in p.refills && i < |p.refills[r].attempts| && p.refills[r].attempts[i].Connected?
  {
    var ws := p.refills[r].attempts[i].ws;
    WithAttempt(p, r, i, Taken).(closed := p.closed + {ws}, home := p.home[ws := Closed])
  }

  function AllIdle(p: Pool): set<nat>
    requires forall k <- p.idle :: p.idle[k] in p.deques
  {
    set k, e | k in p.idle && e in p.deques[p.idle[k]] :: e.ws
  }

  /** `reset`. */
  function Reset(p: Pool): Pool
    requires forall k <- p.idle :: p.idle[k] in p.deques
  {
    p.(idle := map[], refilling := map[], failures := map[], after := map[],
       closed := p.closed + AllIdle(p), home := Moved(p.home, AllIdle(p), Closed))
  }

  // ----- Runs

  datatype Event =
    | GetEvent(key: Key, now: real, dead: set<nat>)
    | SweepEvent(key: Key, now: real, dead: set<nat>)
    | ScheduleEvent(key: Key, now: real)
    | BeginEvent(r: nat)
    | ConnectEvent(r: nat, i: nat)
    | FailEvent(r: nat, i: nat)
    | TakeEvent(r: nat, i: nat, now: real)
    | CancelEvent(r: nat)
    | CloseEvent(r: nat, i: nat)
    | FinishEvent(r: nat)
    | ResetEvent

  predicate Running(p: Pool, r: nat, i: nat) {
    r in p.refills && p.refills[r].phase != Scheduled && i < |p.refills[r].attempts|
  }

  /**
    What can happen next. Attempts go on during a clean-up, which waits for all of them; only refills that `reset`
    has overtaken are cancelled, before they begin or while they wait.
  */
  predicate Enabled(p: Pool, e: Event) {
    match e
    case GetEvent(key, now, dead) => true
    case SweepEvent(key, now, dead) => true
    case ScheduleEvent(key, now) => true
    case BeginEvent(r) => r in p.refills && p.refills[r].phase == Scheduled
    case ConnectEvent(r, i) => Running(p, r, i) && p.refills[r].attempts[i] == Connecting
    case FailEvent(r, i) => Running(p, r, i) && p.refills[r].attempts[i] == Connecting
    case TakeEvent(r, i, now) =>
      Running(p, r, i) && p.refills[r].phase == Filling
      && (p.refills[r].attempts[i].Connected? || p.refills[r].attempts[i].Failed?)
    case CancelEvent(r) => r in p.refills && !Registered(p, r)
    case CloseEvent(r, i) =>
      Running(p, r, i) && p.refills[r].phase == Cleaning && p.refills[r].attempts[i].Connected?
      && Connecting !in p.refills[r].attempts
    case FinishEvent(r) =>
      r in p.refills && p.refills[r].phase == Cleaning
      && forall a <- p.refills[r].attempts :: a.Taken? || a.Failed?
    case ResetEvent => true
  }

  /** Deque numbers in use belong to deques. */
  predicate Linked(p: Pool) {
    && (forall k <- p.idle :: p.idle[k] in p.deques)
    && (forall r <- p.refills :: p.refills[r].phase != Scheduled ==> p.refills[r].bucket in p.deques)
  }

  function Step(p: Pool, e: Event): Pool
    requires Linked(p) && Enabled(p, e)
  {
    match e
    case GetEvent(key, now, dead) => Get(p, key, now, dead).1
    case SweepEvent(key, now, dead) => Sweep(p, key, now, dead)
    case ScheduleEvent(key, now) => ScheduleRefill(p, key, now)
    case BeginEvent(r) => Begin(p, r)
    case ConnectEvent(r, i) => Connect(p, r, i)
    case FailEvent(r, i) => WithAttempt(p, r, i, Failed)
    case TakeEvent(r, i, now) => Take(p, r, i, now)
    case CancelEvent(r) => if p.refills[r].phase == Scheduled then Finish(p, r) else WithPhase(p, r, Cleaning)
    case CloseEvent(r, i) => CloseOne(p, r, i)
    case FinishEvent(r) => Finish(p, r)
    case ResetEvent => Reset(p)
  }
}
