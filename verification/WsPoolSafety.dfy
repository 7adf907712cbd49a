/** What every interleaving of the socket pool keeps. */
module WsPoolSafety {
  import opened Prelude
  import opened WsPool

  // ----- The invariant

  /** Numbers are drawn from one counter. */
  ghost predicate Numbered(p: Pool) {
    && (forall r <- p.refills :: r < p.next)
    && (forall b <- p.deques :: b < p.next)
    && (forall ws <- p.home :: ws < p.next)
    && Linked(p)
    && (forall k <- p.idle, l <- p.idle :: k != l ==> p.idle[k] != p.idle[l])
  }

  /** A registered refill runs for its key, and the deque it fetched is still the one in use. */
  ghost predicate Registry(p: Pool) {
    forall k <- p.refilling ::
      && p.refilling[k] in p.refills && p.refills[p.refilling[k]].key == k
      && (p.refills[p.refilling[k]].phase != Scheduled ==> k in p.idle && p.refills[p.refilling[k]].bucket == p.idle[k])
  }

  function Untaken(attempts: seq<Attempt>): nat {
    if attempts == [] then 0 else (if attempts[0].Taken? then 0 else 1) + Untaken(attempts[1..])
  }

  /** How many sockets the registered refill of a key may still add. */
  function Owed(p: Pool, k: Key): nat {
    if k in p.refilling && p.refilling[k] in p.refills && p.refills[p.refilling[k]].phase == Filling
    then Untaken(p.refills[p.refilling[k]].attempts) else 0
  }

  ghost predicate Room(p: Pool)
    requires Linked(p)
  {
    forall k <- p.idle :: |p.deques[p.idle[k]]| + Owed(p, k) <= p.size
  }

  ghost predicate AttemptHomes(p: Pool) {
    && (forall r <- p.refills :: p.refills[r].phase == Scheduled ==>
          p.refills[r].attempts == [] && p.refills[r].connected == 0)
    && (forall r: nat, i: nat ::
          r in p.refills && i < |p.refills[r].attempts| && p.refills[r].attempts[i].Connected? ==>
          p.refills[r].attempts[i].ws in p.home && p.home[p.refills[r].attempts[i].ws] == Attempted(r, i))
    && (forall ws <- p.home :: p.home[ws].Attempted? ==>
          && p.home[ws].refill in p.refills && p.home[ws].index < |p.refills[p.home[ws].refill].attempts|
          && p.refills[p.home[ws].refill].attempts[p.home[ws].index] == Connected(ws))
  }

  ghost predicate IdleHomes(p: Pool)
    requires Linked(p)
  {
    && (forall k: nat, i: nat :: k in p.idle && i < |p.deques[p.idle[k]]| ==>
          p.deques[p.idle[k]][i].ws in p.home && p.home[p.deques[p.idle[k]][i].ws] == Idle(k))
    && (forall ws <- p.home :: p.home[ws].Idle? ==>
          p.home[ws].key in p.idle && ws in Sockets(p.deques[p.idle[p.home[ws].key]]))
    && (forall k <- p.idle :: Once(p.deques[p.idle[k]]))
  }

  ghost predicate Once(q: seq<Entry>) {
    forall i: nat, j: nat :: i < j < |q| ==> q[i].ws != q[j].ws
  }

  ghost predicate EndHomes(p: Pool) {
    && (forall i: nat :: i < |p.handed| ==> p.handed[i] in p.home && p.home[p.handed[i]] == Handed)
    && (forall ws <- p.home :: p.home[ws] == Handed ==> ws in p.handed)
    && (forall i: nat, j: nat :: i < j < |p.handed| ==> p.handed[i] != p.handed[j])
    && (forall ws: nat :: ws in p.closed <==> ws in p.home && p.home[ws] == Closed)
  }

  ghost predicate Inv(p: Pool) {
    Numbered(p) && Registry(p) && Room(p) && AttemptHomes(p) && IdleHomes(p) && EndHomes(p)
  }

  // ----- Each piece keeps it

  lemma {:induction false} UntakenUpdate(attempts: seq<Attempt>, i: nat, a: Attempt)
    requires i < |attempts|
    ensures Untaken(attempts[i := a]) ==
            Untaken(attempts) - (if attempts[i].Taken? then 0 else 1) + if a.Taken? then 0 else 1
    decreases |attempts|
  {
    if i > 0 {
      UntakenUpdate(attempts[1..], i - 1, a);
      assert attempts[i := a][1..] == attempts[1..][i - 1 := a];
    } else {
      assert attempts[i := a][1..] == attempts[1..];
    }
  }

  lemma Parts(p: Pool)
    requires Inv(p)
    ensures Numbered(p) && Linked(p) && Registry(p) && Room(p) && AttemptHomes(p) && IdleHomes(p) && EndHomes(p)
  {}

  lemma EnsureBucketStructure(p: Pool, key: Key)
    requires Numbered(p) && Registry(p) && Room(p)
    ensures Numbered(EnsureBucket(p, key)) && Registry(EnsureBucket(p, key)) && Room(EnsureBucket(p, key))
  {
    var p' := EnsureBucket(p, key);
    if key !in p.idle {
      assert p.next !in p.deques;
      assert forall k <- p.idle :: p'.idle[k] == p.idle[k] && p'.deques[p.idle[k]] == p.deques[p.idle[k]];
      assert p'.deques[p'.idle[key]] == [];
      assert forall k: nat :: Owed(p', k) == Owed(p, k);
    }
  }

  lemma EnsureBucketHomes(p: Pool, key: Key)
    requires Numbered(p) && AttemptHomes(p) && IdleHomes(p)
    ensures Linked(EnsureBucket(p, key)) && AttemptHomes(EnsureBucket(p, key)) && IdleHomes(EnsureBucket(p, key))
  {
    hide Numbered, EnsureBucket, AttemptHomes, IdleHomes;
    EnsureBucketLinks(p, key);
    SameAttempts(p, EnsureBucket(p, key));
    SameIdle(p, EnsureBucket(p, key));
  }

  lemma SameIdle(p: Pool, p': Pool)
    requires Linked(p) && Linked(p') && IdleHomes(p) && p'.home == p.home
    requires forall k <- p.idle :: k in p'.idle && p'.deques[p'.idle[k]] == p.deques[p.idle[k]]
    requires forall k <- p'.idle :: k in p.idle || p'.deques[p'.idle[k]] == []
    ensures IdleHomes(p')
  {}

  lemma SameAttempts(p: Pool, p': Pool)
    requires AttemptHomes(p) && p'.home == p.home && p'.refills == p.refills
    ensures AttemptHomes(p')
  {}

  /** The deques that were there stay, and a new one is empty. */
  lemma EnsureBucketLinks(p: Pool, key: Key)
    requires Numbered(p)
    ensures
      var p' := EnsureBucket(p, key);
      && Linked(p) && Linked(p') && p'.home == p.home && p'.refills == p.refills
      && (forall k <- p.idle :: k in p'.idle && p'.deques[p'.idle[k]] == p.deques[p.idle[k]])
      && (forall k <- p'.idle :: k in p.idle || p'.deques[p'.idle[k]] == [])
  {}

  lemma EnsureBucketEnds(p: Pool, key: Key)
    requires Numbered(p) && AttemptHomes(p) && IdleHomes(p) && EndHomes(p)
    ensures EndHomes(EnsureBucket(p, key))
  {}

  lemma EnsureBucketKeeps(p: Pool, key: Key)
    requires Inv(p)
    ensures Inv(EnsureBucket(p, key))
  {
    hide Numbered, Registry, Room, AttemptHomes, IdleHomes, EndHomes;
    Parts(p);
    EnsureBucketStructure(p, key);
    EnsureBucketHomes(p, key);
    EnsureBucketEnds(p, key);
  }

  lemma ScheduleRefillStructure(p: Pool, key: Key, now: real)
    requires Numbered(p) && Registry(p) && Room(p)
    ensures Numbered(ScheduleRefill(p, key, now)) && Registry(ScheduleRefill(p, key, now))
    ensures Room(ScheduleRefill(p, key, now))
  {
    var p' := ScheduleRefill(p, key, now);
    if p' != p {
      assert forall r <- p.refills :: p'.refills[r] == p.refills[r];
      assert forall k: nat :: Owed(p', k) == Owed(p, k);
    }
  }

  lemma ScheduleRefillHomes(p: Pool, key: Key, now: real)
    requires Numbered(p) && AttemptHomes(p) && IdleHomes(p)
    ensures
      var p' := ScheduleRefill(p, key, now);
      Linked(p') && AttemptHomes(p') && IdleHomes(p')
  {
    hide ScheduleRefill, Numbered, Linked, AttemptHomes, IdleHomes;
    ScheduleRefillLinks(p, key, now);
    SameIdle(p, ScheduleRefill(p, key, now));
    MoreRefills(p, ScheduleRefill(p, key, now));
  }

  /** Only a refill that has attempted nothing is added. */
  lemma ScheduleRefillLinks(p: Pool, key: Key, now: real)
    requires Numbered(p)
    ensures
      var p' := ScheduleRefill(p, key, now);
      && Linked(p) && Linked(p') && p'.home == p.home && p'.idle == p.idle && p'.deques == p.deques
      && (forall r <- p.refills :: r in p'.refills && p'.refills[r] == p.refills[r])
      && (forall r <- p'.refills :: r in p.refills || (p'.refills[r].attempts == [] && p'.refills[r].connected == 0))
  {}

  lemma MoreRefills(p: Pool, p': Pool)
    requires AttemptHomes(p) && p'.home == p.home
    requires forall r <- p.refills :: r in p'.refills && p'.refills[r] == p.refills[r]
    requires forall r <- p'.refills :: r in p.refills || (p'.refills[r].attempts == [] && p'.refills[r].connected == 0)
    ensures AttemptHomes(p')
  {}

  lemma ScheduleRefillEnds(p: Pool, key: Key, now: real)
    requires Numbered(p) && AttemptHomes(p) && IdleHomes(p) && EndHomes(p)
    ensures EndHomes(ScheduleRefill(p, key, now))
  {}

  lemma ScheduleRefillKeeps(p: Pool, key: Key, now: real)
    requires Inv(p)
    ensures Inv(ScheduleRefill(p, key, now))
  {
    hide Numbered, Registry, Room, AttemptHomes, IdleHomes, EndHomes;
    Parts(p);
    ScheduleRefillStructure(p, key, now);
    ScheduleRefillHomes(p, key, now);
    ScheduleRefillEnds(p, key, now);
  }

  lemma ClosingStructure(p: Pool, key: Key, q: seq<Entry>, out: set<nat>)
    requires Numbered(p) && Registry(p) && Room(p)
    requires key in p.idle
    requires |q| <= |p.deques[p.idle[key]]| && Once(q)
    requires Sockets(q) + out == Sockets(p.deques[p.idle[key]]) && Sockets(q) !! out
    ensures Numbered(Closing(p, key, q, out)) && Registry(Closing(p, key, q, out)) && Room(Closing(p, key, q, out))
  {}

  lemma ClosingAttempts(p: Pool, key: Key, q: seq<Entry>, out: set<nat>)
    requires AttemptHomes(p) && key in p.idle
    requires forall ws <- out :: ws in p.home && p.home[ws].Idle?
    ensures AttemptHomes(Closing(p, key, q, out))
  {}

  lemma ClosingHomes(p: Pool, key: Key, q: seq<Entry>, out: set<nat>)
    requires Numbered(p) && AttemptHomes(p) && IdleHomes(p)
    requires key in p.idle
    requires |q| <= |p.deques[p.idle[key]]| && Once(q)
    requires Sockets(q) + out == Sockets(p.deques[p.idle[key]]) && Sockets(q) !! out
    ensures Linked(Closing(p, key, q, out)) && AttemptHomes(Closing(p, key, q, out))
    ensures IdleHomes(Closing(p, key, q, out))
  {
    hide AttemptHomes;
    var before := p.deques[p.idle[key]];
    assert forall ws <- out :: ws in Sockets(before) && p.home[ws] == Idle(key);
    assert forall i :: 0 <= i < |q| ==> q[i].ws in Sockets(q) && q[i].ws in Sockets(before);
    ClosingAttempts(p, key, q, out);
  }

  lemma ClosingEnds(p: Pool, key: Key, q: seq<Entry>, out: set<nat>)
    requires Numbered(p) && AttemptHomes(p) && IdleHomes(p) && EndHomes(p)
    requires key in p.idle
    requires |q| <= |p.deques[p.idle[key]]| && Once(q)
    requires Sockets(q) + out == Sockets(p.deques[p.idle[key]]) && Sockets(q) !! out
    ensures EndHomes(Closing(p, key, q, out))
  {}

  /** Part of a deque stays, the rest of its sockets are closed. */
  lemma ClosingKeeps(p: Pool, key: Key, q: seq<Entry>, out: set<nat>)
    requires Inv(p)
    requires key in p.idle
    requires |q| <= |p.deques[p.idle[key]]| && Once(q)
    requires Sockets(q) + out == Sockets(p.deques[p.idle[key]]) && Sockets(q) !! out
    ensures Inv(Closing(p, key, q, out))
  {
    hide Numbered, Registry, Room, AttemptHomes, IdleHomes, EndHomes;
    Parts(p);
    ClosingStructure(p, key, q, out);
    ClosingHomes(p, key, q, out);
    ClosingEnds(p, key, q, out);
  }

  lemma HandOutStructure(p: Pool, key: Key)
    requires Numbered(p) && Registry(p) && Room(p)
    requires key in p.idle && p.deques[p.idle[key]] != []
    requires IdleHomes(p)
    ensures Numbered(HandOut(p, key)) && Registry(HandOut(p, key)) && Room(HandOut(p, key))
  {}

  lemma HandOutHomes(p: Pool, key: Key)
    requires Numbered(p) && AttemptHomes(p) && IdleHomes(p)
    requires key in p.idle && p.deques[p.idle[key]] != []
    ensures Linked(HandOut(p, key)) && AttemptHomes(HandOut(p, key)) && IdleHomes(HandOut(p, key))
  {}

  lemma HandOutEnds(p: Pool, key: Key)
    requires Numbered(p) && AttemptHomes(p) && IdleHomes(p) && EndHomes(p)
    requires key in p.idle && p.deques[p.idle[key]] != []
    ensures EndHomes(HandOut(p, key))
  {}

  lemma HandOutKeeps(p: Pool, key: Key)
    requires Inv(p)
    requires key in p.idle && p.deques[p.idle[key]] != []
    ensures Inv(HandOut(p, key))
  {
    hide Numbered, Registry, Room, AttemptHomes, IdleHomes, EndHomes;
    Parts(p);
    HandOutStructure(p, key);
    HandOutHomes(p, key);
    HandOutEnds(p, key);
  }

  lemma ConnectStructure(p: Pool, r: nat, i: nat)
    requires Numbered(p) && Registry(p) && Room(p)
    requires Running(p, r, i) && p.refills[r].attempts[i] == Connecting
    ensures Numbered(Connect(p, r, i)) && Registry(Connect(p, r, i)) && Room(Connect(p, r, i))
  {
    UntakenUpdate(p.refills[r].attempts, i, Connected(p.next));
  }

  lemma ConnectHomes(p: Pool, r: nat, i: nat)
    requires Numbered(p) && AttemptHomes(p) && IdleHomes(p)
    requires Running(p, r, i) && p.refills[r].attempts[i] == Connecting
    ensures Linked(Connect(p, r, i)) && AttemptHomes(Connect(p, r, i)) && IdleHomes(Connect(p, r, i))
  {}

  lemma ConnectEnds(p: Pool, r: nat, i: nat)
    requires Numbered(p) && AttemptHomes(p) && IdleHomes(p) && EndHomes(p)
    requires Running(p, r, i) && p.refills[r].attempts[i] == Connecting
    ensures EndHomes(Connect(p, r, i))
  {}

  lemma ConnectKeeps(p: Pool, r: nat, i: nat)
    requires Inv(p)
    requires Running(p, r, i) && p.refills[r].attempts[i] == Connecting
    ensures Inv(Connect(p, r, i))
  {
    hide Numbered, Registry, Room, AttemptHomes, IdleHomes, EndHomes;
    Parts(p);
    ConnectStructure(p, r, i);
    ConnectHomes(p, r, i);
    ConnectEnds(p, r, i);
  }

  lemma FinishStructure(p: Pool, r: nat)
    requires Numbered(p) && Registry(p) && Room(p)
    requires r in p.refills && forall a <- p.refills[r].attempts :: !a.Connected?
    ensures Numbered(Finish(p, r)) && Registry(Finish(p, r)) && Room(Finish(p, r))
  {}

  lemma FinishHomes(p: Pool, r: nat)
    requires Numbered(p) && AttemptHomes(p) && IdleHomes(p)
    requires r in p.refills && forall a <- p.refills[r].attempts :: !a.Connected?
    ensures Linked(Finish(p, r)) && AttemptHomes(Finish(p, r)) && IdleHomes(Finish(p, r))
  {}

  lemma FinishEnds(p: Pool, r: nat)
    requires Numbered(p) && AttemptHomes(p) && IdleHomes(p) && EndHomes(p)
    requires r in p.refills && forall a <- p.refills[r].attempts :: !a.Connected?
    ensures EndHomes(Finish(p, r))
  {}

  lemma FinishKeeps(p: Pool, r: nat)
    requires Inv(p)
    requires r in p.refills && forall a <- p.refills[r].attempts :: !a.Connected?
    ensures Inv(Finish(p, r))
  {
    hide Numbered, Registry, Room, AttemptHomes, IdleHomes, EndHomes;
    Parts(p);
    FinishStructure(p, r);
    FinishHomes(p, r);
    FinishEnds(p, r);
  }

  lemma CloseOneStructure(p: Pool, r: nat, i: nat)
    requires Numbered(p) && Registry(p) && Room(p)
    requires Running(p, r, i) && p.refills[r].attempts[i].Connected?
    requires AttemptHomes(p)
    ensures Numbered(CloseOne(p, r, i)) && Registry(CloseOne(p, r, i)) && Room(CloseOne(p, r, i))
  {
    UntakenUpdate(p.refills[r].attempts, i, Taken);
  }

  lemma CloseOneHomes(p: Pool, r: nat, i: nat)
    requires Numbered(p) && AttemptHomes(p) && IdleHomes(p)
    requires Running(p, r, i) && p.refills[r].attempts[i].Connected?
    ensures Linked(CloseOne(p, r, i)) && AttemptHomes(CloseOne(p, r, i)) && IdleHomes(CloseOne(p, r, i))
  {}

  lemma CloseOneEnds(p: Pool, r: nat, i: nat)
    requires Numbered(p) && AttemptHomes(p) && IdleHomes(p) && EndHomes(p)
    requires Running(p, r, i) && p.refills[r].attempts[i].Connected?
    ensures EndHomes(CloseOne(p, r, i))
  {}

  lemma CloseOneKeeps(p: Pool, r: nat, i: nat)
    requires Inv(p)
    requires Running(p, r, i) && p.refills[r].attempts[i].Connected?
    ensures Inv(CloseOne(p, r, i))
  {
    hide Numbered, Registry, Room, AttemptHomes, IdleHomes, EndHomes;
    Parts(p);
    CloseOneStructure(p, r, i);
    CloseOneHomes(p, r, i);
    CloseOneEnds(p, r, i);
  }

  lemma ResetStructure(p: Pool)
    requires Numbered(p) && Registry(p) && Room(p)
    ensures Numbered(Reset(p)) && Registry(Reset(p)) && Room(Reset(p))
  {}

  lemma ResetHomes(p: Pool)
    requires Numbered(p) && AttemptHomes(p) && IdleHomes(p)
    ensures Linked(Reset(p)) && AttemptHomes(Reset(p)) && IdleHomes(Reset(p))
  {}

  lemma ResetEnds(p: Pool)
    requires Numbered(p) && AttemptHomes(p) && IdleHomes(p) && EndHomes(p)
    ensures EndHomes(Reset(p))
  {}

  lemma ResetKeeps(p: Pool)
    requires Inv(p)
    ensures Inv(Reset(p))
  {
    hide Numbered, Registry, Room, AttemptHomes, IdleHomes, EndHomes;
    Parts(p);
    ResetStructure(p);
    ResetHomes(p);
    ResetEnds(p);
  }

  lemma {:induction false} UntakenFresh(n: nat)
    ensures Untaken(seq(n, _ => Connecting)) == n
  {
    if n > 0 {
      UntakenFresh(n - 1);
      assert seq(n, _ => Connecting)[1..] == seq(n - 1, _ => Connecting);
    }
  }

  lemma FillStructure(p: Pool, r: nat, needed: nat)
    requires Numbered(p) && Registry(p) && Room(p)
    requires r in p.refills && p.refills[r].phase == Scheduled && p.refills[r].key in p.idle
    requires |p.deques[p.idle[p.refills[r].key]]| + needed <= p.size
    ensures
      var p' := Fill(p, r, needed);
      Numbered(p') && Registry(p') && Room(p')
  {
    UntakenFresh(needed);
  }

  lemma FillHomes(p: Pool, r: nat, needed: nat)
    requires Numbered(p) && Registry(p) && AttemptHomes(p) && IdleHomes(p)
    requires r in p.refills && p.refills[r].phase == Scheduled && p.refills[r].key in p.idle
    requires |p.deques[p.idle[p.refills[r].key]]| + needed <= p.size
    ensures
      var p' := Fill(p, r, needed);
      Linked(p') && AttemptHomes(p') && IdleHomes(p')
  {}

  lemma FillEnds(p: Pool, r: nat, needed: nat)
    requires Numbered(p) && AttemptHomes(p) && EndHomes(p)
    requires r in p.refills && p.refills[r].phase == Scheduled && p.refills[r].key in p.idle
    requires |p.deques[p.idle[p.refills[r].key]]| + needed <= p.size
    ensures EndHomes(Fill(p, r, needed))
  {}

  lemma FillKeeps(p: Pool, r: nat, needed: nat)
    requires Inv(p)
    requires r in p.refills && p.refills[r].phase == Scheduled && p.refills[r].key in p.idle
    requires |p.deques[p.idle[p.refills[r].key]]| + needed <= p.size
    ensures Inv(Fill(p, r, needed))
  {
    hide Numbered, Registry, Room, AttemptHomes, IdleHomes, EndHomes;
    Parts(p);
    FillStructure(p, r, needed);
    FillHomes(p, r, needed);
    FillEnds(p, r, needed);
  }

  lemma MissedStructure(p: Pool, r: nat, i: nat, a: Attempt)
    requires Numbered(p) && Registry(p) && Room(p)
    requires Running(p, r, i) && !p.refills[r].attempts[i].Connected? && !p.refills[r].attempts[i].Taken?
    requires a == Failed || a == Taken
    ensures
      var p' := WithAttempt(p, r, i, a);
      Numbered(p') && Registry(p') && Room(p')
  {
    UntakenUpdate(p.refills[r].attempts, i, a);
  }

  lemma MissedHomes(p: Pool, r: nat, i: nat, a: Attempt)
    requires Numbered(p) && Registry(p) && AttemptHomes(p) && IdleHomes(p)
    requires Running(p, r, i) && !p.refills[r].attempts[i].Connected? && !p.refills[r].attempts[i].Taken?
    requires a == Failed || a == Taken
    ensures
      var p' := WithAttempt(p, r, i, a);
      Linked(p') && AttemptHomes(p') && IdleHomes(p')
  {}

  lemma MissedEnds(p: Pool, r: nat, i: nat, a: Attempt)
    requires Numbered(p) && AttemptHomes(p) && EndHomes(p)
    requires Running(p, r, i) && !p.refills[r].attempts[i].Connected? && !p.refills[r].attempts[i].Taken?
    requires a == Failed || a == Taken
    ensures EndHomes(WithAttempt(p, r, i, a))
  {}

  /** An attempt without a socket changes. */
  lemma MissedKeeps(p: Pool, r: nat, i: nat, a: Attempt)
    requires Inv(p)
    requires Running(p, r, i) && !p.refills[r].attempts[i].Connected? && !p.refills[r].attempts[i].Taken?
    requires a == Failed || a == Taken
    ensures Inv(WithAttempt(p, r, i, a))
  {
    hide Numbered, Registry, Room, AttemptHomes, IdleHomes, EndHomes;
    Parts(p);
    MissedStructure(p, r, i, a);
    MissedHomes(p, r, i, a);
    MissedEnds(p, r, i, a);
  }

  lemma AdoptStructure(p: Pool, r: nat, i: nat, now: real)
    requires Numbered(p) && Registry(p) && Room(p)
    requires AttemptHomes(p)
    requires Running(p, r, i) && p.refills[r].attempts[i].Connected?
    requires p.refills[r].phase == Filling && Registered(p, r)
    ensures
      var p' := Adopt(p, r, i, now);
      Numbered(p') && Registry(p') && Room(p')
  {
    UntakenUpdate(p.refills[r].attempts, i, Taken);
  }

  lemma AdoptAttempts(p: Pool, r: nat, i: nat, now: real)
    requires Linked(p) && AttemptHomes(p)
    requires Running(p, r, i) && p.refills[r].attempts[i].Connected?
    ensures AttemptHomes(Adopt(p, r, i, now))
  {}

  lemma AdoptHomes(p: Pool, r: nat, i: nat, now: real)
    requires Numbered(p) && Registry(p) && AttemptHomes(p) && IdleHomes(p)
    requires Running(p, r, i) && p.refills[r].attempts[i].Connected?
    requires p.refills[r].phase == Filling && Registered(p, r)
    ensures
      var p' := Adopt(p, r, i, now);
      Linked(p') && AttemptHomes(p') && IdleHomes(p')
  {
    var ws := p.refills[r].attempts[i].ws;
    assert ws in p.home && p.home[ws] == Attempted(r, i);
    AdoptAttempts(p, r, i, now);
    var key := p.refills[r].key;
    var before := p.deques[p.idle[key]];
    Appended(before, Entry(ws, now));
    assert ws !in Sockets(before) && Once(before + [Entry(ws, now)]);
    assert forall k <- p.idle :: k != key ==> Adopt(p, r, i, now).deques[p.idle[k]] == p.deques[p.idle[k]];
    hide AttemptHomes, Sockets, Once;
  }

  lemma Appended(q: seq<Entry>, e: Entry)
    ensures Sockets(q + [e]) == Sockets(q) + {e.ws}
    ensures Once(q) && e.ws !in Sockets(q) ==> Once(q + [e])
  {}

  lemma AdoptEnds(p: Pool, r: nat, i: nat, now: real)
    requires Numbered(p) && AttemptHomes(p) && EndHomes(p)
    requires Running(p, r, i) && p.refills[r].attempts[i].Connected?
    requires p.refills[r].phase == Filling && Registered(p, r)
    ensures EndHomes(Adopt(p, r, i, now))
  {}

  lemma AdoptKeeps(p: Pool, r: nat, i: nat, now: real)
    requires Inv(p)
    requires Running(p, r, i) && p.refills[r].attempts[i].Connected?
    requires p.refills[r].phase == Filling && Registered(p, r)
    ensures Inv(Adopt(p, r, i, now))
  {
    hide Numbered, Registry, Room, AttemptHomes, IdleHomes, EndHomes;
    Parts(p);
    AdoptStructure(p, r, i, now);
    AdoptHomes(p, r, i, now);
    AdoptEnds(p, r, i, now);
  }

  lemma CleanStructure(p: Pool, r: nat, failures: map<Key, nat>, after: map<Key, real>)
    requires Numbered(p) && Registry(p) && Room(p)
    requires r in p.refills && p.refills[r].phase != Scheduled
    ensures
      var p' := WithPhase(p.(failures := failures, after := after), r, Cleaning);
      Numbered(p') && Registry(p') && Room(p')
  {}

  lemma CleanHomes(p: Pool, r: nat, failures: map<Key, nat>, after: map<Key, real>)
    requires Numbered(p) && Registry(p) && AttemptHomes(p) && IdleHomes(p)
    requires r in p.refills && p.refills[r].phase != Scheduled
    ensures
      var p' := WithPhase(p.(failures := failures, after := after), r, Cleaning);
      Linked(p') && AttemptHomes(p') && IdleHomes(p')
  {}

  lemma CleanEnds(p: Pool, r: nat, failures: map<Key, nat>, after: map<Key, real>)
    requires Numbered(p) && AttemptHomes(p) && EndHomes(p)
    requires r in p.refills && p.refills[r].phase != Scheduled
    ensures EndHomes(WithPhase(p.(failures := failures, after := after), r, Cleaning))
  {}

  /** A refill turns to its clean-up, with whatever backoff. */
  lemma CleanKeeps(p: Pool, r: nat, failures: map<Key, nat>, after: map<Key, real>)
    requires Inv(p)
    requires r in p.refills && p.refills[r].phase != Scheduled
    ensures Inv(WithPhase(p.(failures := failures, after := after), r, Cleaning))
  {
    hide Numbered, Registry, Room, AttemptHomes, IdleHomes, EndHomes;
    Parts(p);
    CleanStructure(p, r, failures, after);
    CleanHomes(p, r, failures, after);
    CleanEnds(p, r, failures, after);
  }

  // ----- Whole operations

  lemma FrontParts(q: seq<Entry>, n: nat)
    requires Once(q) && n <= |q|
    ensures Once(q[n..]) && Sockets(q[n..]) + Sockets(q[..n]) == Sockets(q) && Sockets(q[n..]) !! Sockets(q[..n])
  {}

  lemma GetKeeps(p: Pool, key: Key, now: real, dead: set<nat>)
    requires Inv(p)
    ensures Linked(p) && Inv(Get(p, key, now, dead).1)
  {
    hide Inv, EnsureBucket, ScheduleRefill, HandOut, Linked;
    InvLinks(p);
    if p.size > 0 {
      var p1 := EnsureBucket(p, key);
      EnsureBucketKeeps(p, key);
      InvLinks(p1);
      EnsureBucketHas(p, key);
      var q := p1.deques[p1.idle[key]];
      var n := StaleFront(q, now, dead);
      InvOnce(p1, key);
      FrontParts(q, n);
      ClosingKeeps(p1, key, q[n..], Sockets(q[..n]));
      var p2 := Closing(p1, key, q[n..], Sockets(q[..n]));
      if n < |q| {
        HandOutKeeps(p2, key);
        ScheduleRefillKeeps(HandOut(p2, key), key, now);
      } else {
        ScheduleRefillKeeps(p2, key, now);
      }
    }
  }

  lemma InvLinks(p: Pool)
    requires Inv(p)
    ensures Linked(p) && forall k <- p.idle :: p.idle[k] in p.deques
  {}

  lemma InvOnce(p: Pool, key: Key)
    requires Inv(p) && key in p.idle && p.idle[key] in p.deques
    ensures Once(p.deques[p.idle[key]])
  {}

  lemma EnsureBucketHas(p: Pool, key: Key)
    requires key in p.idle ==> p.idle[key] in p.deques
    ensures var p1 := EnsureBucket(p, key); p1.size == p.size && key in p1.idle && p1.idle[key] in p1.deques
    ensures EnsureBucket(p, key).refills == p.refills && EnsureBucket(p, key).after == p.after
  {}

  lemma {:induction false} ReadyOnce(q: seq<Entry>, now: real, dead: set<nat>)
    requires Once(q)
    ensures Once(Ready(q, now, dead))
  {
    var ready := Ready(q, now, dead);
    if q != [] {
      ReadyOnce(q[1..], now, dead);
      if !Stale(q[0], now, dead) {
        var rest := Ready(q[1..], now, dead);
        assert forall e <- rest :: e in q[1..] && e.ws != q[0].ws;
        assert ready == [q[0]] + rest;
      }
    }
  }

  /** The sweep splits a deque in two. */
  lemma ReadyParts(q: seq<Entry>, now: real, dead: set<nat>)
    requires Once(q)
    ensures Once(Ready(q, now, dead))
    ensures Sockets(Ready(q, now, dead)) + Expired(q, now, dead) == Sockets(q)
    ensures Sockets(Ready(q, now, dead)) !! Expired(q, now, dead)
  {
    ReadyOnce(q, now, dead);
    var ready := Ready(q, now, dead);
    forall e <- ready, x <- q | Stale(x, now, dead)
      ensures e.ws != x.ws
    {
      var i :| 0 <= i < |q| && q[i] == e;
      var j :| 0 <= j < |q| && q[j] == x;
    }
  }

  lemma SweepKeeps(p: Pool, key: Key, now: real, dead: set<nat>)
    requires Inv(p)
    ensures Linked(p) && Inv(Sweep(p, key, now, dead))
  {
    hide Inv, EnsureBucket, ScheduleRefill, Linked;
    InvLinks(p);
    if p.size > 0 {
      var p1 := EnsureBucket(p, key);
      EnsureBucketKeeps(p, key);
      InvLinks(p1);
      EnsureBucketHas(p, key);
      var q := p1.deques[p1.idle[key]];
      InvOnce(p1, key);
      ReadyParts(q, now, dead);
      ClosingKeeps(p1, key, Ready(q, now, dead), Expired(q, now, dead));
      ScheduleRefillKeeps(Closing(p1, key, Ready(q, now, dead), Expired(q, now, dead)), key, now);
    }
  }

  lemma BeginKeeps(p: Pool, r: nat)
    requires Inv(p) && r in p.refills && p.refills[r].phase == Scheduled
    ensures Linked(p) && Inv(Begin(p, r))
  {
    hide Inv, EnsureBucket, Fill, Finish, Linked;
    InvLinks(p);
    var key := p.refills[r].key;
    var p1 := EnsureBucket(p, key);
    EnsureBucketKeeps(p, key);
    EnsureBucketHas(p, key);
    NothingAttempted(p1, r);
    var needed := p.size - |p1.deques[p1.idle[key]]|;
    if needed <= 0 {
      FinishKeeps(p1, r);
    } else {
      FillKeeps(p1, r, needed);
    }
  }

  lemma NothingAttempted(p: Pool, r: nat)
    requires Inv(p) && r in p.refills && p.refills[r].phase == Scheduled
    ensures p.refills[r].attempts == []
  {}

  lemma SettleKeeps(p: Pool, r: nat, now: real)
    requires Inv(p) && r in p.refills && p.refills[r].phase != Scheduled
    ensures Inv(Settle(p, r, now))
  {
    hide Inv;
    var f := p.refills[r];
    var failures := (if f.key in p.failures then p.failures[f.key] else 0) + 1;
    CleanKeeps(p, r, p.failures - {f.key}, p.after - {f.key});
    CleanKeeps(p, r, p.failures[f.key := failures], p.after[f.key := now + Backoff(failures)]);
  }

  lemma TakeKeeps(p: Pool, r: nat, i: nat, now: real)
    requires Inv(p) && Enabled(p, TakeEvent(r, i, now))
    ensures Linked(p) && Inv(Take(p, r, i, now))
  {
    hide Inv, Settle, Adopt, Linked;
    InvLinks(p);
    assert p.refills[r].bucket in p.deques by { InvBucket(p, r); }
    if !p.refills[r].attempts[i].Connected? {
      MissedKeeps(p, r, i, Taken);
      SettleKeeps(WithAttempt(p, r, i, Taken), r, now);
    } else if Registered(p, r) {
      AdoptKeeps(p, r, i, now);
      AdoptStays(p, r, i, now);
      SettleKeeps(Adopt(p, r, i, now), r, now);
    } else {
      CleanKeeps(p, r, p.failures, p.after);
    }
  }

  lemma InvBucket(p: Pool, r: nat)
    requires Inv(p) && r in p.refills && p.refills[r].phase != Scheduled
    ensures p.refills[r].bucket in p.deques
  {}

  lemma AdoptStays(p: Pool, r: nat, i: nat, now: real)
    requires Running(p, r, i) && p.refills[r].attempts[i].Connected? && p.refills[r].bucket in p.deques
    ensures r in Adopt(p, r, i, now).refills && Adopt(p, r, i, now).refills[r].phase == p.refills[r].phase
  {}

  lemma StepKeeps(p: Pool, e: Event)
    requires Inv(p) && Enabled(p, e)
    ensures Linked(p) && Inv(Step(p, e))
  {
    hide Inv, Linked, Get, Sweep, ScheduleRefill, Begin, Connect, WithAttempt, Take, Finish, WithPhase, CloseOne, Reset;
    InvLinks(p);
    match e
    case GetEvent(key, now, dead) => GetKeeps(p, key, now, dead);
    case SweepEvent(key, now, dead) => SweepKeeps(p, key, now, dead);
    case ScheduleEvent(key, now) => ScheduleRefillKeeps(p, key, now);
    case BeginEvent(r) => BeginKeeps(p, r);
    case ConnectEvent(r, i) => ConnectKeeps(p, r, i);
    case FailEvent(r, i) => MissedKeeps(p, r, i, Failed);
    case TakeEvent(r, i, now) => TakeKeeps(p, r, i, now);
    case CancelEvent(r) =>
      if p.refills[r].phase == Scheduled {
        NothingAttempted(p, r);
        FinishKeeps(p, r);
      } else {
        CleanKeeps(p, r, p.failures, p.after);
      }
    case CloseEvent(r, i) => CloseOneKeeps(p, r, i);
    case FinishEvent(r) => FinishKeeps(p, r);
    case ResetEvent => ResetKeeps(p);
  }

  // ----- What the pool hands out and keeps

  /** A call gives out the oldest idle socket that is still fresh, and closes exactly the stale ones before it. */
  lemma GetIsFirstFresh(p: Pool, key: Key, now: real, dead: set<nat>)
    requires Linked(p) && p.size > 0
    ensures
      var q := if key in p.idle then p.deques[p.idle[key]] else [];
      var (r, p') := Get(p, key, now, dead);
      match r
      case None => (forall e <- q :: Stale(e, now, dead)) && p'.closed == p.closed + Sockets(q) && p'.handed == p.handed
      case Some(ws) =>
        exists n :: 0 <= n < |q| && q[n].ws == ws && !Stale(q[n], now, dead)
                    && (forall i :: 0 <= i < n ==> Stale(q[i], now, dead))
                    && p'.closed == p.closed + Sockets(q[..n]) && p'.handed == p.handed + [ws]
                    && key in p'.idle && p'.idle[key] in p'.deques && p'.deques[p'.idle[key]] == q[n + 1..]
  {
    hide ScheduleRefill;
    var q := if key in p.idle then p.deques[p.idle[key]] else [];
    var n := StaleFront(q, now, dead);
    var p1 := EnsureBucket(p, key);
    assert p1.deques[p1.idle[key]] == q;
    var p2 := Closing(p1, key, q[n..], Sockets(q[..n]));
    ScheduleRefillTouches(if n == |q| then p2 else HandOut(p2, key), key, now);
    if n < |q| {
      assert q[n..][1..] == q[n + 1..];
    } else {
      assert q[..n] == q;
    }
  }

  /** One entry stands before another. */
  predicate Stands(q: seq<Entry>, x: Entry, y: Entry) {
    exists a, b :: 0 <= a < b < |q| && q[a] == x && q[b] == y
  }

  /** The entries stand in the order they stood in before. */
  predicate InOrder(r: seq<Entry>, q: seq<Entry>) {
    forall i, j :: 0 <= i < j < |r| ==> Stands(q, r[i], r[j])
  }

  lemma {:induction false} ReadyInOrder(q: seq<Entry>, now: real, dead: set<nat>)
    ensures InOrder(Ready(q, now, dead), q)
  {
    if q != [] {
      ReadyInOrder(q[1..], now, dead);
      HeadInOrder(Ready(q[1..], now, dead), q, Stale(q[0], now, dead));
    }
  }

  lemma HeadInOrder(rest: seq<Entry>, q: seq<Entry>, stale: bool)
    requires q != [] && InOrder(rest, q[1..]) && forall e <- rest :: e in q[1..]
    ensures InOrder((if stale then [] else [q[0]]) + rest, q)
  {
    var r := (if stale then [] else [q[0]]) + rest;
    var skip := |r| - |rest|;
    forall i, j | 0 <= i < j < |r|
      ensures Stands(q, r[i], r[j])
    {
      assert r[j] == rest[j - skip] && rest[j - skip] in q[1..];
      if i < skip {
        var b :| 0 <= b < |q[1..]| && q[1..][b] == r[j];
        assert q[0] == r[i] && q[b + 1] == r[j];
      } else {
        assert rest[i - skip] == r[i] && Stands(q[1..], rest[i - skip], rest[j - skip]);
        var a, b :| 0 <= a < b < |q[1..]| && q[1..][a] == r[i] && q[1..][b] == r[j];
        assert q[a + 1] == r[i] && q[b + 1] == r[j];
      }
    }
  }

  /**
    After a round of rotation the idle sockets of the key are those that were fresh, in their order, the others are
    closed, and if some are missing a refill is under way or waits out its delay.
  */
  lemma SweepKeepsFresh(p: Pool, key: Key, now: real, dead: set<nat>)
    requires Linked(p) && p.size > 0
    ensures
      var q := if key in p.idle then p.deques[p.idle[key]] else [];
      var p' := Sweep(p, key, now, dead);
      && key in p'.idle && p'.idle[key] in p'.deques
      && (forall e :: e in p'.deques[p'.idle[key]] <==> e in q && !Stale(e, now, dead))
      && InOrder(p'.deques[p'.idle[key]], q)
      && (|p'.deques[p'.idle[key]]| < p.size ==> key in p'.refilling || (key in p.after && now < p.after[key]))
      && p'.closed == p.closed + Expired(q, now, dead)
  {
    hide ScheduleRefill;
    ScheduleRefillTouches(p, key, now);
    var p1 := EnsureBucket(p, key);
    var q := p1.deques[p1.idle[key]];
    ScheduleRefillTouches(Closing(p1, key, Ready(q, now, dead), Expired(q, now, dead)), key, now);
    ScheduleRefillRegisters(Closing(p1, key, Ready(q, now, dead), Expired(q, now, dead)), key, now);
    ReadyInOrder(q, now, dead);
    hide InOrder;
  }

  lemma ScheduleRefillTouches(p: Pool, key: Key, now: real)
    ensures
      var p' := ScheduleRefill(p, key, now);
      p'.idle == p.idle && p'.deques == p.deques && p'.closed == p.closed && p'.handed == p.handed
  {}

  /** After every call for a key, a refill of that key is under way, unless the last ones failed and it must wait. */
  lemma GetRefills(p: Pool, key: Key, now: real, dead: set<nat>)
    requires Linked(p) && p.size > 0
    ensures
      var p' := Get(p, key, now, dead).1;
      key in p'.refilling || (key in p.after && now < p.after[key])
  {
    hide StaleFront, Moved, Sockets, ScheduleRefill, EnsureBucket;
    EnsureBucketHas(p, key);
    var p1 := EnsureBucket(p, key);
    var q := p1.deques[p1.idle[key]];
    var n := StaleFront(q, now, dead);
    var p2 := Closing(p1, key, q[n..], Sockets(q[..n]));
    ScheduleRefillRegisters(if n == |q| then p2 else HandOut(p2, key), key, now);
  }

  /** After a reset nothing is idle and nothing waits: the next call for any key starts a refill of its own. */
  lemma ResetStartsOver(p: Pool, key: Key, now: real, dead: set<nat>)
    requires Linked(p) && p.size > 0
    ensures
      var p' := Step(p, ResetEvent);
      && p'.idle == map[] && Get(p', key, now, dead).0 == None
      && var p2 := Get(p', key, now, dead).1;
         key in p2.refilling && p2.refilling[key] >= p.next
  {
    hide StaleFront, Moved, AllIdle;
    assert StaleFront([], now, dead) == 0 by { NothingStale(now, dead); }
  }

  lemma NothingStale(now: real, dead: set<nat>)
    ensures StaleFront([], now, dead) == 0
  {}

  lemma ScheduleRefillRegisters(p: Pool, key: Key, now: real)
    requires p.size > 0
    ensures key in ScheduleRefill(p, key, now).refilling || (key in p.after && now < p.after[key])
  {}

  // ----- Theorems over every run

  ghost predicate IsRun(p: Pool, events: seq<Event>)
    decreases |events|
  {
    events == [] || (Linked(p) && Enabled(p, events[0]) && IsRun(Step(p, events[0]), events[1..]))
  }

  ghost function After(p: Pool, events: seq<Event>): Pool
    requires IsRun(p, events)
    decreases |events|
  {
    if events == [] then p else After(Step(p, events[0]), events[1..])
  }

  lemma {:induction false} RunKeeps(p: Pool, events: seq<Event>)
    requires Inv(p) && IsRun(p, events)
    ensures Inv(After(p, events))
    decreases |events|
  {
    hide Inv, Step, Enabled, Linked;
    if events != [] {
      StepKeeps(p, events[0]);
      RunKeeps(Step(p, events[0]), events[1..]);
    }
  }

  predicate InAttempt(p: Pool, ws: nat) {
    exists r <- p.refills :: Connected(ws) in p.refills[r].attempts
  }

  predicate InIdle(p: Pool, ws: nat)
    requires Linked(p)
  {
    exists k <- p.idle :: ws in Sockets(p.deques[p.idle[k]])
  }

  /** One of four things, and nothing else. */
  predicate ExactlyOne(a: bool, b: bool, c: bool, d: bool) {
    (if a then 1 else 0) + (if b then 1 else 0) + (if c then 1 else 0) + (if d then 1 else 0) == 1
  }

  /**
    Every socket that was ever connected is in exactly one place: a connect attempt, the idle sockets, the hands of
    one client, or closed. Nobody is handed the same socket twice, and no idle socket is listed twice.
  */
  lemma SocketOwnership(size: nat, events: seq<Event>)
    requires IsRun(Start(size), events)
    ensures
      var p := After(Start(size), events);
      && Linked(p)
      && (forall ws <- p.home :: ExactlyOne(InAttempt(p, ws), InIdle(p, ws), ws in p.handed, ws in p.closed))
      && (forall i: nat, j: nat :: i < j < |p.handed| ==> p.handed[i] != p.handed[j])
      && (forall k <- p.idle :: Once(p.deques[p.idle[k]]))
  {
    hide Inv, InAttempt, InIdle, ExactlyOne, IsRun;
    StartKeeps(size);
    RunKeeps(Start(size), events);
    var p := After(Start(size), events);
    NoRepeats(p);
    forall ws <- p.home
      ensures ExactlyOne(InAttempt(p, ws), InIdle(p, ws), ws in p.handed, ws in p.closed)
    {
      OneHome(p, ws);
    }
  }

  lemma StartKeeps(size: nat)
    ensures Inv(Start(size))
  {}

  lemma NoRepeats(p: Pool)
    requires Inv(p)
    ensures Linked(p)
    ensures forall i: nat, j: nat :: i < j < |p.handed| ==> p.handed[i] != p.handed[j]
    ensures forall k <- p.idle :: Once(p.deques[p.idle[k]])
  {}

  lemma OneHome(p: Pool, ws: nat)
    requires Inv(p) && ws in p.home
    ensures ExactlyOne(InAttempt(p, ws), InIdle(p, ws), ws in p.handed, ws in p.closed)
  {}

  /** Never more idle sockets than configured, even counting those the key's one registered refill may still add. */
  lemma IdleIsBounded(size: nat, events: seq<Event>)
    requires IsRun(Start(size), events)
    ensures
      var p := After(Start(size), events);
      Linked(p) && forall k <- p.idle :: |p.deques[p.idle[k]]| + Owed(p, k) <= size
  {
    hide Inv, Step, Enabled, IsRun;
    StartKeeps(size);
    RunKeeps(Start(size), events);
    RoomLeft(After(Start(size), events));
    SizeStays(Start(size), events);
  }

  lemma RoomLeft(p: Pool)
    requires Inv(p)
    ensures Linked(p) && forall k <- p.idle :: |p.deques[p.idle[k]]| + Owed(p, k) <= p.size
  {}

  /** Steps change neither the size nor the registrations they find, and count upwards. */
  predicate Frame(p: Pool, p': Pool) {
    && p'.size == p.size && p'.next >= p.next
    && forall k <- p'.refilling :: p'.refilling[k] >= p.next || (k in p.refilling && p'.refilling[k] == p.refilling[k])
  }

  lemma ScheduleRefillFrame(p: Pool, key: Key, now: real)
    ensures Frame(p, ScheduleRefill(p, key, now))
  {}

  lemma GetFrame(p: Pool, key: Key, now: real, dead: set<nat>)
    requires key in p.idle ==> p.idle[key] in p.deques
    ensures Frame(p, Get(p, key, now, dead).1)
  {
    hide StaleFront, Moved, Sockets, ScheduleRefill;
    if p.size > 0 {
      var p1 := EnsureBucket(p, key);
      var q := p1.deques[p1.idle[key]];
      var n := StaleFront(q, now, dead);
      var p2 := Closing(p1, key, q[n..], Sockets(q[..n]));
      ScheduleRefillFrame(if n == |q| then p2 else HandOut(p2, key), key, now);
    }
  }

  lemma SweepFrame(p: Pool, key: Key, now: real, dead: set<nat>)
    requires key in p.idle ==> p.idle[key] in p.deques
    ensures Frame(p, Sweep(p, key, now, dead))
  {
    hide Ready, Moved, Expired, ScheduleRefill;
    if p.size > 0 {
      var p1 := EnsureBucket(p, key);
      var q := p1.deques[p1.idle[key]];
      ScheduleRefillFrame(Closing(p1, key, Ready(q, now, dead), Expired(q, now, dead)), key, now);
    }
  }

  lemma BeginFrame(p: Pool, r: nat)
    requires r in p.refills && (p.refills[r].key in p.idle ==> p.idle[p.refills[r].key] in p.deques)
    ensures Frame(p, Begin(p, r))
  {}

  /** Taking a result changes the idle sockets only by adopting one. */
  lemma TakeFrame(p: Pool, r: nat, i: nat, now: real)
    requires Running(p, r, i) && p.refills[r].bucket in p.deques
    ensures Frame(p, Take(p, r, i, now)) && Take(p, r, i, now).idle == p.idle
    ensures !Registered(p, r) || !p.refills[r].attempts[i].Connected? ==> Take(p, r, i, now).deques == p.deques
  {
    hide Settle;
    if p.refills[r].attempts[i].Connected? {
      SettleFrame(Adopt(p, r, i, now), r, now);
    } else {
      SettleFrame(WithAttempt(p, r, i, Taken), r, now);
    }
  }

  lemma SettleFrame(p: Pool, r: nat, now: real)
    requires r in p.refills
    ensures Frame(p, Settle(p, r, now)) && Settle(p, r, now).idle == p.idle && Settle(p, r, now).deques == p.deques
  {}

  lemma StepFrame(p: Pool, e: Event)
    requires Linked(p) && Enabled(p, e)
    ensures Frame(p, Step(p, e))
  {
    hide Get, Sweep, Begin, Take;
    match e
    case GetEvent(key, now, dead) => GetFrame(p, key, now, dead);
    case SweepEvent(key, now, dead) => SweepFrame(p, key, now, dead);
    case BeginEvent(r) => BeginFrame(p, r);
    case TakeEvent(r, i, now) => TakeFrame(p, r, i, now);
    case _ =>
  }

  lemma {:induction false} SizeStays(p: Pool, events: seq<Event>)
    requires IsRun(p, events)
    ensures After(p, events).size == p.size
    decreases |events|
  {
    hide Step, Enabled, Linked;
    if events != [] {
      StepFrame(p, events[0]);
      SizeStays(Step(p, events[0]), events[1..]);
    }
  }

  /** When no refill is left running, no socket is stuck in one: each is idle, handed out or closed. */
  lemma NothingLeaks(size: nat, events: seq<Event>)
    requires IsRun(Start(size), events) && After(Start(size), events).refills == map[]
    ensures
      var p := After(Start(size), events);
      Linked(p) && forall ws <- p.home :: InIdle(p, ws) || ws in p.handed || ws in p.closed
  {
    SocketOwnership(size, events);
  }

  /** A refill that is running without its registration, as every refill is that a reset has overtaken. */
  predicate Overtaken(p: Pool, r: nat) {
    r < p.next && forall k <- p.refilling :: p.refilling[k] != r
  }

  /** What the idle deques hold, by key. */
  function Contents(p: Pool): map<Key, seq<Entry>>
    requires Linked(p)
  {
    map k | k in p.idle :: p.deques[p.idle[k]]
  }

  lemma ResetOvertakes(p: Pool, r: nat)
    requires Inv(p) && r in p.refills
    ensures Linked(p) && Overtaken(Step(p, ResetEvent), r)
  {}

  lemma {:induction false} OvertakenStays(p: Pool, events: seq<Event>, r: nat)
    requires IsRun(p, events) && Overtaken(p, r)
    ensures Overtaken(After(p, events), r)
    decreases |events|
  {
    hide Step, Enabled, Linked, Overtaken;
    if events != [] {
      OvertakenStep(p, events[0], r);
      OvertakenStays(Step(p, events[0]), events[1..], r);
    }
  }

  lemma OvertakenStep(p: Pool, e: Event, r: nat)
    requires Linked(p) && Enabled(p, e) && Overtaken(p, r)
    ensures Overtaken(Step(p, e), r)
  {
    hide Step, Enabled, Linked;
    StepFrame(p, e);
  }

  /** Whatever an overtaken refill takes, the idle sockets stay as they are. */
  lemma OvertakenTake(p: Pool, r: nat, i: nat, now: real)
    requires Inv(p) && Overtaken(p, r) && Enabled(p, TakeEvent(r, i, now))
    ensures
      Linked(p)
      && var p' := Step(p, TakeEvent(r, i, now));
         Linked(p') && Contents(p') == Contents(p)
  {
    hide Inv, Take;
    StepKeeps(p, TakeEvent(r, i, now));
    InvLinks(Step(p, TakeEvent(r, i, now)));
    TakeFrame(p, r, i, now);
  }

  /** A refill overtaken by reset adds nothing, however long afterwards its connections arrive. */
  lemma OvertakenAddsNothing(size: nat, before: seq<Event>, r: nat, after: seq<Event>, i: nat, now: real)
    requires IsRun(Start(size), before + [ResetEvent] + after)
    requires IsRun(Start(size), before) && r in After(Start(size), before).refills
    requires Enabled(After(Start(size), before + [ResetEvent] + after), TakeEvent(r, i, now))
    ensures
      var p := After(Start(size), before + [ResetEvent] + after);
      Linked(p)
      && var p' := Step(p, TakeEvent(r, i, now));
         Linked(p') && Contents(p') == Contents(p)
  {
    hide Inv, Step, Enabled, Linked;
    StartKeeps(size);
    RunKeeps(Start(size), before);
    RunKeeps(Start(size), before + [ResetEvent] + after);
    var p0 := After(Start(size), before);
    assert before + [ResetEvent] + after == before + ([ResetEvent] + after);
    AfterAppend(Start(size), before, [ResetEvent] + after);
    assert ([ResetEvent] + after)[1..] == after;
    ResetOvertakes(p0, r);
    OvertakenStays(Step(p0, ResetEvent), after, r);
    OvertakenTake(After(Start(size), before + [ResetEvent] + after), r, i, now);
  }

  lemma {:induction false} AfterAppend(p: Pool, a: seq<Event>, b: seq<Event>)
    requires IsRun(p, a + b)
    ensures IsRun(p, a) && IsRun(After(p, a), b) && After(p, a + b) == After(After(p, a), b)
    decreases |a|
  {
    hide Step, Enabled, Linked;
    if a == [] {
      assert a + b == b;
    } else {
      assert (a + b)[1..] == a[1..] + b;
      AfterAppend(Step(p, a[0]), a[1..], b);
    }
  }
}
