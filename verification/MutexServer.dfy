/** The mutex server's query handling as methods on the mutable pool. The server keeps a ghost
    history of the transition system and every method extends it by steps of that system, so
    what `MutexRuns` and `MutexCascade` prove of runs holds of the objects. */
module MutexServer {
  import opened PoolSpec
  import opened Counting
  import opened ConnPool
  import opened MutexSystem
  import opened MutexInvariant
  import MutexRuns
  import MutexCascade

  /** What the network does in one attempt, and when: the dial (if there is one) takes
      `dial` or fails, the exchange takes `rtt` and is answered or not. */
  datatype Attempt = Attempt(getAt: Time, dial: Option<nat>, dialAt: Time,
                             rtt: nat, answered: bool, exchangeAt: Time, reportAt: Time)
  {
    predicate From(t: Time) {
      t <= getAt <= dialAt <= exchangeAt <= reportAt
    }
  }

  ghost predicate Ordered(script: seq<Attempt>, t: Time) {
    forall k :: 0 <= k < |script| ==> script[k].From(Previous(script, t, k))
  }

  /** When attempt k may start. */
  ghost function Previous(script: seq<Attempt>, t: Time, k: nat): Time
    requires k <= |script|
  {
    if k == 0 then t else script[k - 1].reportAt
  }

  /** The state a Get leads to. */
  function AfterTake(s: State, q: nat, now: Time): State
    requires q in s.queries && s.queries[q].NeedConn? && |s.pool.ups| > 0
  {
    var (out, p) := PoolSpec.Get(s.pool, now);
    s.(clock := now, pool := p, queries := s.queries[q := Taken(s.queries[q].i, out)])
  }

  lemma TakeIsStep(cfg: Config, s: State, q: nat, now: Time)
    requires q in s.queries && s.queries[q].NeedConn? && |s.pool.ups| > 0 && s.clock <= now
    ensures Next(cfg, s, Action.Take(q), AfterTake(s, q, now))
  {
  }

  ghost predicate Among(us: seq<UpstreamRecord>, vs: seq<UpstreamRecord>) {
    forall i | 0 <= i < |us| :: us[i] in vs
  }

  lemma AmongThemselves(us: seq<UpstreamRecord>, vs: seq<UpstreamRecord>)
    requires multiset(us) == multiset(vs)
    ensures Among(us, vs)
  {
    assert forall i | 0 <= i < |us| :: us[i] in multiset(us) && us[i] in multiset(vs);
  }

  ghost function Sockets(cache: map<string, seq<ConnEntry>>): set<Socket> {
    set c | c in Entries(cache) :: c.conn
  }

  lemma FewerSockets(cache: map<string, seq<ConnEntry>>, cache': map<string, seq<ConnEntry>>)
    requires Entries(cache) <= Entries(cache')
    ensures Sockets(cache) <= Sockets(cache')
  {
  }

  class Server {
    const cfg: Config
    const pool: ConnectionPool
    ghost var tr: seq<State>
    ghost var acts: seq<Action>

    /** A server over a pool to which the upstreams have been added. */
    constructor (pool: ConnectionPool, ghost start: Time)
      requires pool.Valid() && pool.cache == map[] && pool.spawned == [] && start >= 0
      requires |pool.upstreams| > 0 && Distinct(RecordViews(pool.upstreams))
      requires forall u | u in RecordViews(pool.upstreams) :: u.weight == 0.0 && u.wakeup == 0
      ensures Valid() && this.pool == pool && this.cfg == pool.cfg && acts == []
      ensures Now() == State(start, pool.View(), [], multiset{}, map[], pool.cfg.concurrency, [])
    {
      hide AddressOf;
      this.cfg, this.pool := pool.cfg, pool;
      acts := [];
      tr := [State(start, pool.View(), [], multiset{}, map[], pool.cfg.concurrency, [])];
      new;
      assert forall u | u in RecordViews(pool.upstreams) :: u.name != "";
    }

    ghost function Now(): State
      requires |tr| == |acts| + 1
      reads this`tr, this`acts
    {
      tr[|acts|]
    }

    ghost predicate Valid()
      reads this, pool, pool.upstreams, Entries(pool.cache), pool.spawned
    {
      && pool.cfg == cfg && pool.Valid()
      && Run(cfg, tr, acts)
      && Now().pool == pool.View() && Now().pending == Conns(pool.spawned)
    }

    /** Books a step of the transition system once the pool has taken it. */
    ghost method Step(act: Action, s: State)
      requires Run(cfg, tr, acts) && Next(cfg, Now(), act, s)
      requires pool.cfg == cfg && pool.Valid() && s.pool == pool.View() && s.pending == Conns(pool.spawned)
      modifies this`tr, this`acts
      ensures Valid() && Now() == s
      ensures tr == old(tr) + [s] && acts == old(acts) + [act]
    {
      hide AddressOf, Next;
      ExtendRun(cfg, tr, acts, act, s);
      tr, acts := tr + [s], acts + [act];
    }

    /** Asks the pool, which either hands out a connection or names an upstream. */
    method Take(ghost q: nat, getAt: Time) returns (ce: ConnEntry?, upstream: Upstream)
      requires Valid() && q in Now().queries && Now().queries[q].NeedConn? && Now().clock <= getAt
      modifies this`tr, this`acts, pool`cache
      ensures Valid() && old(tr) <= tr && acts == old(acts) + [Action.Take(q)] && Now().clock == getAt
      ensures Entries(pool.cache) <= old(Entries(pool.cache))
      ensures var i := old(Now().queries[q].i);
              Now().queries == old(Now().queries)[q := if ce != null then Exchanging(i, ce.View())
                                                       else Dialing(i, upstream.Address())]
      ensures ce != null <==> upstream.IsZero()
      ensures Now().dialed == old(Now().dialed) && Now().closed == old(Now().closed)
      ensures ce != null ==> ce in old(Entries(pool.cache))
    {
      hide Next;
      ghost var s := Now();
      RunInv(cfg, tr, acts, |acts|);
      ce, upstream := pool.Get(getAt);
      assert pool.Valid() && Conns(pool.spawned) == s.pending;
      TakeIsStep(cfg, s, q, getAt);
      Step(Action.Take(q), AfterTake(s, q, getAt));
    }

    method NewConnection(ghost q: nat, upstream: Upstream, dial: Option<nat>, dialAt: Time) returns (ce: ConnEntry?)
      requires Valid() && q in Now().queries && Now().clock <= dialAt
      requires Now().queries[q].Dialing? && Now().queries[q].addr == upstream.Address()
      modifies this`tr, this`acts, pool`cache, pool`spawned, pool.upstreams
      ensures Valid() && old(tr) <= tr && Now().clock == dialAt
      ensures acts == old(acts) + [if dial.Some? then DialOk(q, dial.value) else DialFail(q)]
      ensures Entries(pool.cache) <= old(Entries(pool.cache)) && pool.upstreams == old(pool.upstreams)
      ensures var i := old(Now().queries[q].i);
              Now().queries == old(Now().queries)[q := if ce != null then Exchanging(i, ce.View()) else Retry(cfg, i)]
      ensures ce != null <==> dial.Some?
      ensures ce != null ==> fresh(ce) && fresh(ce.conn) && ce.id == |old(Now().dialed)| && ce.conn.closes == 0
      ensures Now().dialed == old(Now().dialed) + if ce != null then [upstream.Address()] else []
      ensures Now().closed == old(Now().closed)
      ensures Handed(old(pool.spawned), old(Entries(pool.cache)), pool.spawned)
    {
      hide AddressOf, Init, StepAt, Lists, RecordViews;
      ghost var s, i := Now(), Now().queries[q].i;
      ce := pool.NewConnection(upstream, dial, |s.dialed|, dialAt);
      assert pool.Valid();
      if ce != null {
        assert Conns(pool.spawned) == s.pending;
        Step(DialOk(q, dial.value),
             s.(clock := dialAt, dialed := s.dialed + [upstream.Address()],
                queries := s.queries[q := Exchanging(i, ce.View())]));
      } else {
        Step(DialFail(q),
             s.(clock := dialAt, pool := pool.View(), pending := Conns(pool.spawned),
                queries := s.queries[q := Retry(cfg, i)]));
      }
    }

    /** Takes an idle connection or dials one. */
    method GetConnection(ghost q: nat, a: Attempt) returns (ce: ConnEntry?)
      requires Valid() && q in Now().queries && Now().queries[q].NeedConn? && a.From(Now().clock)
      modifies this`tr, this`acts, pool`cache, pool`spawned, pool.upstreams
      ensures Valid() && old(tr) <= tr && old(acts) <= acts && Now().clock <= a.dialAt
      ensures Entries(pool.cache) <= old(Entries(pool.cache)) && pool.upstreams == old(pool.upstreams)
      ensures var i := old(Now().queries[q].i);
              Now().queries == old(Now().queries)[q := if ce != null then Exchanging(i, ce.View()) else Retry(cfg, i)]
      ensures ce != null ==> ce in old(Entries(pool.cache)) || (fresh(ce) && fresh(ce.conn))
    {
      hide AddressOf, Init, StepAt, Entries, Lists, RecordViews, Conns;
      var upstream;
      ce, upstream := Take(q, a.getAt);
      if !upstream.IsZero() {
        ce := NewConnection(q, upstream, a.dial, a.dialAt);
      }
    }

    /** The object a query holds is not among the pool's objects. */
    lemma HeldApart(q: nat, ce: ConnEntry)
      requires Valid() && q in Now().queries && Now().queries[q].HasConn() && Now().queries[q].ce == ce.View()
      ensures ce !in Entries(pool.cache) && ce !in pool.spawned
    {
      hide AddressOf, Init, StepAt;
      RunInv(cfg, tr, acts, |acts|);
      MutexRuns.HeldElsewhere(cfg, Now(), q);
      forall c | c in Entries(pool.cache) ensures c.id != ce.id {
        var a, k :| a in pool.cache && 0 <= k < |pool.cache[a]| && pool.cache[a][k] == c;
        assert pool.View().cache[a] == Conns(pool.cache[a]);
        assert pool.View().cache[a][k].id == c.id;
      }
      forall c | c in pool.spawned ensures c.id != ce.id {
        var k :| 0 <= k < |pool.spawned| && pool.spawned[k] == c;
        assert Conns(pool.spawned)[k].id == c.id;
      }
    }

    /** Two queries never hold the same connection. */
    lemma HeldDistinct(q: nat, r: nat)
      requires Valid() && q != r && q in Now().queries && r in Now().queries
      requires Now().queries[q].HasConn() && Now().queries[r].HasConn()
      ensures Now().queries[q].ce.id != Now().queries[r].ce.id
      ensures Now().queries[q].ce.id < |Now().dialed|
    {
      RunInv(cfg, tr, acts, |acts|);
      var s, id := Now(), Now().queries[q].ce.id;
      assert PhasePlaced(cfg, s.dialed, Addresses(s.pool.ups), s.queries[q]);
      assert Places(s, id) == 1;
      if s.queries[r].ce.id == id {
        MutexRuns.HeldTwice(s.queries, q, r, id);
      }
    }

    /** The exchange itself: its duration is booked before the error is looked at. */
    method Exchange(ghost q: nat, ce: ConnEntry, a: Attempt)
      requires Valid() && q in Now().queries && Now().queries[q].Exchanging? && Now().queries[q].ce == ce.View()
      requires Now().clock <= a.exchangeAt
      modifies this`tr, this`acts, ce
      ensures Valid() && old(tr) <= tr && Now().clock == a.exchangeAt
      ensures acts == old(acts) + [Action.Exchange(q, a.rtt, a.answered)]
      ensures Now().queries == old(Now().queries)[q := Exchanged(cfg, old(Now().queries[q]), a.rtt, a.answered)]
      ensures Now().dialed == old(Now().dialed) && Now().closed == old(Now().closed)
      ensures Now().queries[q].ce == ce.View()
    {
      hide AddressOf, Init, StepAt, Lists, RecordViews;
      HeldApart(q, ce);
      ghost var s := Now();
      ce.AddExchange(cfg, a.rtt);
      if !a.answered {
        ce.AddError();
      }
      assert pool.View() == s.pool && Conns(pool.spawned) == s.pending && pool.Valid();
      Step(Action.Exchange(q, a.rtt, a.answered),
           s.(clock := a.exchangeAt, queries := s.queries[q := Exchanged(cfg, s.queries[q], a.rtt, a.answered)]));
    }

    method CloseConnection(ghost q: nat, ce: ConnEntry, now: Time)
      requires Valid() && q in Now().queries && Now().queries[q].Closing? && Now().queries[q].ce == ce.View()
      requires Now().clock <= now
      modifies this`tr, this`acts, pool`upstreams, pool`cache, pool`spawned, pool.upstreams, ce.conn
      ensures Valid() && old(tr) <= tr && acts == old(acts) + [Close(q)] && Now().clock == now
      ensures Entries(pool.cache) <= old(Entries(pool.cache)) && Among(pool.upstreams, old(pool.upstreams))
      ensures Now().queries == old(Now().queries)[q := Retry(cfg, old(Now().queries[q].i))]
      ensures ce.conn.closes == old(ce.conn.closes) + 1
      ensures Now().dialed == old(Now().dialed) && Now().closed == old(Now().closed) + multiset{ce.id}
      ensures Handed(old(pool.spawned), old(Entries(pool.cache)), pool.spawned)
    {
      hide AddressOf, Init, StepAt, Lists, RecordViews;
      ghost var s, i := Now(), Now().queries[q].i;
      pool.CloseConnection(ce, now);
      AmongThemselves(pool.upstreams, old(pool.upstreams));
      Step(Close(q), s.(clock := now, pool := pool.View(), pending := Conns(pool.spawned),
                        closed := s.closed + multiset{s.queries[q].ce.id}, queries := s.queries[q := Retry(cfg, i)]));
    }

    method AddConnection(ghost q: nat, ce: ConnEntry, now: Time)
      requires Valid() && q in Now().queries && Now().queries[q].Adding? && Now().queries[q].ce == ce.View()
      requires Now().clock <= now
      modifies this`tr, this`acts, pool`upstreams, pool`cache, pool`spawned, pool.upstreams
      ensures Valid() && old(tr) <= tr && acts == old(acts) + [Return(q)] && Now().clock == now
      ensures Now().queries == old(Now().queries)[q := Done(Answered)]
      ensures Now().dialed == old(Now().dialed) && Now().closed == old(Now().closed)
      ensures Entries(pool.cache) <= old(Entries(pool.cache)) + {ce} && Among(pool.upstreams, old(pool.upstreams))
      ensures Handed(old(pool.spawned), old(Entries(pool.cache)), pool.spawned)
    {
      hide AddressOf, Init, StepAt, Lists, RecordViews;
      ghost var s := Now();
      var ok := pool.Add(ce, now);
      AmongThemselves(pool.upstreams, old(pool.upstreams));
      Step(Return(q), s.(clock := now, pool := pool.View(), pending := Conns(pool.spawned),
                         queries := s.queries[q := Done(Answered)]));
    }

    /** One attempt of the retry loop; null when the dial or the exchange failed. */
    method AttemptExchange(ghost q: nat, a: Attempt) returns (ce: ConnEntry?)
      requires Valid() && q in Now().queries && Now().queries[q].NeedConn? && a.From(Now().clock)
      modifies this`tr, this`acts, pool`upstreams, pool`cache, pool`spawned, pool.upstreams
      modifies Entries(pool.cache), Sockets(pool.cache)
      ensures Valid() && old(tr) <= tr && old(acts) <= acts && Now().clock <= a.reportAt
      ensures Entries(pool.cache) <= old(Entries(pool.cache)) && Among(pool.upstreams, old(pool.upstreams))
      ensures var i := old(Now().queries[q].i);
              Now().queries == old(Now().queries)[q := if ce != null then Adding(i, ce.View()) else Retry(cfg, i)]
    {
      hide AddressOf, Init, StepAt, Entries, Lists, RecordViews, Conns;
      ce := GetConnection(q, a);
      if ce != null {
        assert ce.conn in old(Sockets(pool.cache)) || fresh(ce.conn);
        Exchange(q, ce, a);
        if !a.answered {
          CloseConnection(q, ce, a.reportAt);
          ce := null;
        }
      }
    }

    lemma AccountSettled(q: nat)
      requires Valid() && q in Now().queries && Now().queries[q].Done?
      ensures MutexCascade.Settled(cfg, MutexCascade.Books(acts, q), Now().queries[q].out)
    {
      assert acts[..|acts|] == acts;
      MutexCascade.QueryAccounts(cfg, tr, acts, |acts|, q);
    }

    /** The retry loop, up to its first success; `i` is the attempt it stopped at. */
    method RetryLoop(ghost q: nat, script: seq<Attempt>) returns (ce: ConnEntry?, i: nat)
      requires Valid() && q in Now().queries && Now().queries[q] == NeedConn(0)
      requires |script| == cfg.retries + 1 && Ordered(script, Now().clock)
      modifies this`tr, this`acts, pool`upstreams, pool`cache, pool`spawned, pool.upstreams
      modifies Entries(pool.cache), Sockets(pool.cache)
      ensures Valid() && old(tr) <= tr && old(acts) <= acts
      ensures Among(pool.upstreams, old(pool.upstreams))
      ensures Now().queries == old(Now().queries)[q := if ce != null then Adding(i, ce.View()) else Done(Failed)]
      ensures ce != null ==> i <= cfg.retries && Now().clock <= script[i].reportAt
    {
      hide AddressOf, Init, StepAt, Entries, Lists, RecordViews, Conns, Sockets;
      ce := null;
      i := 0;
      while i <= cfg.retries
        invariant 0 <= i <= cfg.retries + 1 && ce == null
        invariant Valid() && old(tr) <= tr && old(acts) <= acts
        invariant Now().clock <= Previous(script, old(Now().clock), i)
        invariant Entries(pool.cache) <= old(Entries(pool.cache))
        invariant Among(pool.upstreams, old(pool.upstreams))
        invariant Now().queries == old(Now().queries)[q := if i <= cfg.retries then NeedConn(i) else Done(Failed)]
      {
        assert script[i].From(Previous(script, old(Now().clock), i));
        FewerSockets(pool.cache, old(pool.cache));
        ce := AttemptExchange(q, script[i]);
        if ce != null {
          break;
        }
        i := i + 1;
      }
    }

    /** In the history of the whole system the account of this query is settled: answered
        exactly when one attempt succeeded, with one connection returned and one closed for
        each failed exchange, or failed after retries + 1 attempts. */
    method RecursiveQuery(ghost q: nat, script: seq<Attempt>) returns (ok: bool)
      requires Valid() && q in Now().queries && Now().queries[q] == NeedConn(0)
      requires |script| == cfg.retries + 1 && Ordered(script, Now().clock)
      modifies this`tr, this`acts, pool`upstreams, pool`cache, pool`spawned, pool.upstreams
      modifies Entries(pool.cache), Sockets(pool.cache)
      ensures Valid() && old(tr) <= tr && old(acts) <= acts
      ensures Now().queries == old(Now().queries)[q := Done(if ok then Answered else Failed)]
      ensures MutexCascade.Settled(cfg, MutexCascade.Books(acts, q), if ok then Answered else Failed)
    {
      hide AddressOf, Init, StepAt, Entries, Lists, RecordViews, Conns;
      var ce, i := RetryLoop(q, script);
      ok := ce != null;
      if ok {
        AddConnection(q, ce, script[i].reportAt);
      }
      AccountSettled(q);
    }

    /** The pool never holds more than `concurrency` connections for each distinct address. */
    method PoolSize() returns (size: nat)
      requires Valid()
      ensures size <= cfg.concurrency * |Addresses(RecordViews(pool.upstreams))|
    {
      ghost var p := pool.View();
      assert p == Now().pool;
      size := pool.Size();
      assert pool.View() == p by {
        assert RecordViews(pool.upstreams) == p.ups && Lists(pool.cache) == p.cache;
      }
      MutexRuns.PoolBound(cfg, tr, acts, |acts|);
      MutexRuns.SameAddresses(cfg, tr, acts, |acts|);
      assert Addresses(tr[0].pool.ups) == Addresses(RecordViews(pool.upstreams));
    }

    /** One of the goroutines started by a purge runs. */
    method RunSpawned(k: nat, now: Time)
      requires Valid() && k < |pool.spawned| && Now().clock <= now
      modifies this`tr, this`acts, pool`upstreams, pool`cache, pool`spawned, pool.upstreams, pool.spawned[k].conn
      ensures Valid() && tr == old(tr) + [Now()] && acts == old(acts) + [AsyncClose(k)] && Now().clock == now
      ensures var ce := old(pool.spawned[k]);
              ce.conn.closes == old(ce.conn.closes) + 1 && Now().closed == old(Now().closed) + multiset{ce.id}
      ensures Now().queries == old(Now().queries) && Now().dialed == old(Now().dialed)
      ensures Entries(pool.cache) <= old(Entries(pool.cache)) && Among(pool.upstreams, old(pool.upstreams))
      ensures Handed(old(pool.spawned), old(Entries(pool.cache)), pool.spawned)
    {
      hide AddressOf, Init, StepAt, Lists, RecordViews, CloseStep;
      ghost var s := Now();
      assert s.pending[k] == pool.spawned[k].View();
      var ce := pool.RunSpawned(k, now);
      AmongThemselves(pool.upstreams, old(pool.upstreams));
      Step(AsyncClose(k), s.(clock := now, pool := pool.View(), pending := Conns(pool.spawned),
                             closed := s.closed + multiset{s.pending[k].id}));
    }

    /** Takes a semaphore slot. */
    method Acquire(ghost q: nat, ghost start: Time)
      requires Valid() && q !in Now().queries && Now().sem > 0 && Now().clock <= start
      modifies this`tr, this`acts
      ensures Valid() && old(tr) <= tr && acts == old(acts) + [Action.Acquire(q)] && Now().clock == start
      ensures Now().queries == old(Now().queries)[q := Admitted] && Now().sem == old(Now().sem) - 1
      ensures Now().dialed == old(Now().dialed) && Now().closed == old(Now().closed)
    {
      ghost var s := Now();
      Step(Action.Acquire(q), s.(clock := start, sem := s.sem - 1, queries := s.queries[q := Admitted]));
    }

    /** A response cache answers the question, or does not. */
    method LookUp(ghost q: nat, ghost hit: bool, ghost now: Time)
      requires Valid() && q in Now().queries && Now().queries[q].Admitted? && Now().clock <= now
      modifies this`tr, this`acts
      ensures Valid() && old(tr) <= tr && acts == old(acts) + [Lookup(q, hit)] && Now().clock == now
      ensures Now().queries == old(Now().queries)[q := if hit then Done(Cached) else NeedConn(0)]
      ensures Now().dialed == old(Now().dialed) && Now().closed == old(Now().closed)
    {
      ghost var s := Now();
      Step(Lookup(q, hit), s.(clock := now, queries := s.queries[q := if hit then Done(Cached) else NeedConn(0)]));
    }

    /** Both; `hit` says whether a response cache answers the question. */
    method Admit(ghost q: nat, ghost hit: bool, ghost start: Time)
      requires Valid() && q !in Now().queries && Now().sem > 0 && Now().clock <= start
      modifies this`tr, this`acts
      ensures Valid() && old(tr) <= tr && old(acts) <= acts && Now().clock == start
      ensures Now().queries == old(Now().queries)[q := if hit then Done(Cached) else NeedConn(0)]
    {
      hide AddressOf, Init, StepAt, Lists, RecordViews, Conns;
      Acquire(q, start);
      LookUp(q, hit, start);
    }

    method Leave(ghost q: nat)
      requires Valid() && q in Now().queries && Now().queries[q].Done?
      modifies this`tr, this`acts
      ensures Valid() && old(tr) <= tr && acts == old(acts) + [Release(q)]
      ensures Now().queries == old(Now().queries)[q := Released(old(Now().queries[q].out))]
      ensures Now().sem == old(Now().sem) + 1 && Now().clock == old(Now().clock)
      ensures Now().dialed == old(Now().dialed) && Now().closed == old(Now().closed)
    {
      ghost var s := Now();
      Step(Release(q), s.(sem := s.sem + 1, queries := s.queries[q := Released(s.queries[q].out)]));
    }

    lemma SlotReturned(s: State, k: nat, q: nat, out: Outcome)
      requires Valid() && k < |tr| && tr[k] == s && q !in s.queries && Now().queries == s.queries[q := Released(out)]
      ensures Now().sem == s.sem
    {
      RunInv(cfg, tr, acts, k);
      RunInv(cfg, tr, acts, |acts|);
      CountUpdate(s.queries, q, Released(out), IsActive());
    }

    /** The query leaves with its outcome; the slots are as in state k, before it came. */
    method Conclude(ghost q: nat, ghost out: Outcome, ghost s: State, ghost k: nat)
      requires Valid() && k < |tr| && tr[k] == s && q !in s.queries && Now().queries == s.queries[q := Done(out)]
      modifies this`tr, this`acts
      ensures Valid() && old(tr) <= tr && old(acts) <= acts
      ensures Now().queries == s.queries[q := Released(out)] && Now().sem == s.sem
    {
      hide AddressOf, Init, StepAt, Lists, RecordViews, Conns;
      Leave(q);
      SlotReturned(s, k, q, out);
    }

    /** A whole query under the semaphore. It gives its slot back. */
    method HandleDNS(ghost q: nat, hit: bool, script: seq<Attempt>, ghost start: Time) returns (ok: bool)
      requires Valid() && q !in Now().queries && Now().sem > 0 && Now().clock <= start
      requires |script| == cfg.retries + 1 && Ordered(script, start)
      modifies this`tr, this`acts, pool`upstreams, pool`cache, pool`spawned, pool.upstreams
      modifies Entries(pool.cache), Sockets(pool.cache)
      ensures Valid() && old(tr) <= tr && old(acts) <= acts
      ensures Now().queries == old(Now().queries)[q := Released(if hit then Cached else if ok then Answered else Failed)]
      ensures Now().sem == old(Now().sem)
    {
      hide AddressOf, Init, StepAt, Entries, Lists, RecordViews, Conns;
      ghost var s := Now();
      Admit(q, hit, start);
      ok := true;
      if !hit {
        ok := RecursiveQuery(q, script);
      }
      Conclude(q, if hit then Cached else if ok then Answered else Failed, s, |old(acts)|);
    }
  }
}
