/** The socket pool as the object the source updates in place. */
module WsPoolObjects {
  import opened Prelude
  import opened P = WsPool

  /** The inner loop of a sweep empties a deque into two lists. */
  method Separate(q: seq<Entry>, now: real, dead: set<nat>) returns (ready: seq<Entry>, expired: seq<Entry>)
    ensures ready == Ready(q, now, dead) && Sockets(expired) == Expired(q, now, dead)
  {
    hide Ready, Expired, Sockets, Stale;
    var left := q;
    ready, expired := [], [];
    NothingSwept(now, dead);
    while left != []
      invariant ready + Ready(left, now, dead) == Ready(q, now, dead)
      invariant Sockets(expired) + Expired(left, now, dead) == Expired(q, now, dead)
      decreases |left|
    {
      var e := left[0];
      SweepHead(left, now, dead);
      SocketsAppend(expired, e);
      if Stale(e, now, dead) {
        expired := expired + [e];
      } else {
        ready := ready + [e];
      }
      left := left[1..];
    }
    NothingSwept(now, dead);
  }

  class SocketPool {
    const size: nat
    var idle: map<Key, nat>
    var deques: map<nat, seq<Entry>>
    var refilling: map<Key, nat>
    var failures: map<Key, nat>
    var after: map<Key, real>
    var refills: map<nat, Refill>
    var handed: seq<nat>
    var closed: set<nat>
    var next: nat
    ghost var home: map<nat, Home>

    ghost function Model(): Pool
      reads this
    {
      Pool(size, idle, deques, refilling, failures, after, refills, handed, closed, home, next)
    }

    constructor (size: nat)
      ensures Model() == Start(size)
    {
      this.size := size;
      idle, deques, refilling, failures, after, refills := map[], map[], map[], map[], map[], map[];
      handed, closed, home, next := [], {}, map[], 0;
    }

    method FetchBucket(key: Key) returns (bucket: nat)
      modifies this
      ensures Model() == EnsureBucket(old(Model()), key)
      ensures bucket == idle[key]
    {
      if key !in idle {
        idle := idle[key := next];
        deques := deques[next := []];
        next := next + 1;
      }
      bucket := idle[key];
    }

    method Schedule(key: Key, now: real)
      modifies this
      ensures Model() == ScheduleRefill(old(Model()), key, now)
    {
      if size <= 0 || key in refilling || (key in after && now < after[key]) { return; }
      refilling := refilling[key := next];
      refills := refills[next := Refill(key, Scheduled, 0, [], 0)];
      next := next + 1;
    }

    method CloseSocket(ws: nat)
      modifies `closed, `home
      ensures closed == old(closed) + {ws} && home == Moved(old(home), {ws}, Closed)
    {
      closed := closed + {ws};
      home := Moved(home, {ws}, Closed);
    }

    method CloseAll(entries: seq<Entry>)
      modifies `closed, `home
      ensures closed == old(closed) + Sockets(entries) && home == Moved(old(home), Sockets(entries), Closed)
    {
      NoneMoved(home);
      for i := 0 to |entries|
        invariant closed == old(closed) + Sockets(entries[..i])
        invariant home == Moved(old(home), Sockets(entries[..i]), Closed)
      {
        SocketsOneMore(entries, i);
        CloseSocket(entries[i].ws);
      }
      assert entries[..|entries|] == entries;
    }

    method Take(key: Key, now: real, dead: set<nat>) returns (r: Option<nat>)
      requires key in idle ==> idle[key] in deques
      modifies this
      ensures (r, Model()) == Get(old(Model()), key, now, dead)
    {
      hide ScheduleRefill, Moved, Sockets;
      if size <= 0 { return None; }
      var bucket := FetchBucket(key);
      ghost var p1 := Model();
      ghost var q, n := deques[bucket], 0;
      NothingClosed(p1, key);
      while deques[bucket] != []
        invariant n <= StaleFront(q, now, dead) && bucket in deques && deques[bucket] == q[n..]
        invariant Model() == Closing(p1, key, q[n..], Sockets(q[..n]))
        decreases |deques[bucket]|
      {
        var e := deques[bucket][0];
        StaleFrontAt(q, now, dead, n);
        if Stale(e, now, dead) {
          OneMoreClosed(p1, key, q, n);
          deques := deques[bucket := deques[bucket][1..]];
          CloseSocket(e.ws);
          n := n + 1;
          continue;
        }
        deques := deques[bucket := deques[bucket][1..]];
        handed := handed + [e.ws];
        home := home[e.ws := Handed];
        assert Model() == HandOut(Closing(p1, key, q[n..], Sockets(q[..n])), key);
        Schedule(key, now);
        return Some(e.ws);
      }
      Schedule(key, now);
      return None;
    }

    method SweepBucket(key: Key, now: real, dead: set<nat>)
      requires key in idle ==> idle[key] in deques
      modifies this
      ensures Model() == Sweep(old(Model()), key, now, dead)
    {
      hide ScheduleRefill, Moved, Sockets, Ready, Expired;
      if size <= 0 { return; }
      var bucket := FetchBucket(key);
      ghost var p1 := Model();
      var ready, expired := Separate(deques[bucket], now, dead);
      deques := deques[bucket := ready];
      CloseAll(expired);
      assert Model() == Closing(p1, key, ready, Sockets(expired));
      if |ready| < size { Schedule(key, now); }
    }

    method EndRefill(r: nat)
      requires r in refills
      modifies this
      ensures Model() == Finish(old(Model()), r)
    {
      var key := refills[r].key;
      if key in refilling && refilling[key] == r { refilling := refilling - {key}; }
      refills := refills - {r};
    }

    /** `_refill` up to its first wait. */
    method BeginRefill(r: nat)
      requires r in refills && (refills[r].key in idle ==> idle[refills[r].key] in deques)
      modifies this
      ensures Model() == Begin(old(Model()), r)
    {
      var f := refills[r];
      var bucket := FetchBucket(f.key);
      var needed := size - |deques[bucket]|;
      if needed <= 0 {
        EndRefill(r);
        return;
      }
      refills := refills[r := f.(phase := Filling, bucket := bucket, attempts := seq(needed, _ => Connecting))];
    }

    method SettleRefill(r: nat, now: real)
      requires r in refills
      modifies this
      ensures Model() == Settle(old(Model()), r, now)
    {
      var f := refills[r];
      if exists i :: 0 <= i < |f.attempts| && !f.attempts[i].Taken? { return; }
      if f.connected > 0 {
        failures := failures - {f.key};
        after := after - {f.key};
      } else {
        var count := (if f.key in failures then failures[f.key] else 0) + 1;
        failures := failures[f.key := count];
        after := after[f.key := now + Backoff(count)];
      }
      refills := refills[r := f.(phase := Cleaning)];
    }

    /** The loop of `_refill` with a result in hand: adopted only by the refill that is still registered. */
    method TakeResult(r: nat, i: nat, now: real)
      requires r in refills && i < |refills[r].attempts| && refills[r].bucket in deques
      modifies this
      ensures Model() == P.Take(old(Model()), r, i, now)
    {
      hide Settle;
      var f := refills[r];
      if f.attempts[i].Connected? {
        if !(f.key in refilling && refilling[f.key] == r) {
          refills := refills[r := f.(phase := Cleaning)];
          return;
        }
        var ws := f.attempts[i].ws;
        deques := deques[f.bucket := deques[f.bucket] + [Entry(ws, now)]];
        home := home[ws := Idle(f.key)];
        f := f.(connected := f.connected + 1);
      }
      refills := refills[r := f.(attempts := f.attempts[i := Taken])];
      SettleRefill(r, now);
    }

    method CloseIdle()
      requires Linked(Model())
      modifies `closed, `home
      ensures closed == old(closed) + AllIdle(old(Model())) && home == Moved(old(home), AllIdle(old(Model())), Closed)
    {
      hide Moved, IdleOf, Sockets, AllIdle;
      ghost var p := Model();
      var keys := idle.Keys;
      NoneIdle(p);
      while keys != {}
        invariant keys <= p.idle.Keys
        invariant closed == p.closed + IdleOf(p, p.idle.Keys - keys)
        invariant home == Moved(p.home, IdleOf(p, p.idle.Keys - keys), Closed)
        decreases |keys|
      {
        var key :| key in keys;
        ghost var done := p.idle.Keys - keys;
        CloseAll(deques[idle[key]]);
        IdleOneMore(p, done, key);
        MovedTwice(p.home, IdleOf(p, done), Sockets(p.deques[p.idle[key]]));
        assert p.idle.Keys - (keys - {key}) == done + {key};
        keys := keys - {key};
      }
      assert p.idle.Keys - {} == p.idle.Keys;
      EveryKey(p);
    }

    method ResetPool()
      requires Linked(Model())
      modifies this
      ensures Model() == Reset(old(Model()))
    {
      CloseIdle();
      idle, refilling, failures, after := map[], map[], map[], map[];
    }
  }

  // ----- Facts the loops need

  lemma NoneMoved(home: map<nat, Home>)
    ensures Moved(home, Sockets([]), Closed) == home
  {}

  lemma MovedTwice(home: map<nat, Home>, a: set<nat>, b: set<nat>)
    ensures Moved(Moved(home, a, Closed), b, Closed) == Moved(home, a + b, Closed)
  {}

  lemma NothingClosed(p: Pool, key: Key)
    requires key in p.idle && p.idle[key] in p.deques
    ensures
      var q := p.deques[p.idle[key]];
      q[0..] == q && Closing(p, key, q[0..], Sockets(q[..0])) == p
  {}

  lemma {:induction false} StaleFrontAt(q: seq<Entry>, now: real, dead: set<nat>, n: nat)
    requires n <= StaleFront(q, now, dead) && n < |q|
    ensures n < StaleFront(q, now, dead) <==> Stale(q[n], now, dead)
  {}

  lemma SocketsOneMore(q: seq<Entry>, n: nat)
    requires n < |q|
    ensures Sockets(q[..n + 1]) == Sockets(q[..n]) + {q[n].ws}
  {}

  lemma OneMoreClosed(p: Pool, key: Key, q: seq<Entry>, n: nat)
    requires key in p.idle && n < |q|
    ensures
      var p' := Closing(p, key, q[n..], Sockets(q[..n]));
      Closing(p, key, q[n + 1..], Sockets(q[..n + 1])) ==
      p'.(deques := p'.deques[p.idle[key] := q[n..][1..]], closed := p'.closed + {q[n].ws},
          home := Moved(p'.home, {q[n].ws}, Closed))
  {}

  lemma SweepHead(q: seq<Entry>, now: real, dead: set<nat>)
    requires q != []
    ensures Ready(q, now, dead) == (if Stale(q[0], now, dead) then [] else [q[0]]) + Ready(q[1..], now, dead)
    ensures Expired(q, now, dead) == (if Stale(q[0], now, dead) then {q[0].ws} else {}) + Expired(q[1..], now, dead)
  {}

  lemma NothingSwept(now: real, dead: set<nat>)
    ensures Ready([], now, dead) == [] && Expired([], now, dead) == {} && Sockets([]) == {}
  {}

  lemma SocketsAppend(q: seq<Entry>, e: Entry)
    ensures Sockets(q + [e]) == Sockets(q) + {e.ws}
  {}

  /** The idle sockets of some of the keys. */
  ghost function IdleOf(p: Pool, keys: set<Key>): set<nat>
    requires forall k <- p.idle :: p.idle[k] in p.deques
    requires keys <= p.idle.Keys
  {
    set k, e | k in keys && e in p.deques[p.idle[k]] :: e.ws
  }

  lemma NoneIdle(p: Pool)
    requires forall k <- p.idle :: p.idle[k] in p.deques
    ensures p.idle.Keys - p.idle.Keys == {} && IdleOf(p, {}) == {} && Moved(p.home, {}, Closed) == p.home
  {}

  lemma EveryKey(p: Pool)
    requires forall k <- p.idle :: p.idle[k] in p.deques
    ensures IdleOf(p, p.idle.Keys) == AllIdle(p)
  {}

  lemma IdleOneMore(p: Pool, keys: set<Key>, key: Key)
    requires forall k <- p.idle :: p.idle[k] in p.deques
    requires keys <= p.idle.Keys && key in p.idle
    ensures IdleOf(p, keys + {key}) == IdleOf(p, keys) + Sockets(p.deques[p.idle[key]])
  {}
}
