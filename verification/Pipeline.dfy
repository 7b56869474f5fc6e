/** The retry budget that a query carries round the cycle of the pipeline's connector and
    querier workers. */
module Pipeline {
  import opened PoolSpec
  import opened Counting
  import opened ConnPool

  function At<T>(f: nat -> T, i: nat): T {
    f(i)
  }

  /** The number of dials a query may cause. */
  function Budget(cfg: Config): nat {
    if cfg.retries == 0 then 2 else cfg.retries
  }

  /** A dial takes a while or fails, and it fails at some time. */
  datatype Dial = Dial(rtt: Option<nat>, at: Time)

  /** Where the dials of one assignment end, from counter `used`, when dial number i ends as
      `dials` says: at the first success, or with the budget. */
  function FailUntil(dials: nat -> Dial, used: nat, budget: nat): (e: nat)
    ensures used <= e && (e <= budget || e == used)
    ensures forall i :: used <= i < e ==> At(dials, i).rtt.None?
    ensures e < budget ==> At(dials, e).rtt.Some?
    decreases budget - used
  {
    if used >= budget || At(dials, used).rtt.Some? then used else FailUntil(dials, used + 1, budget)
  }

  lemma FailUntilIs(dials: nat -> Dial, used: nat, budget: nat, e: nat)
    requires used <= e && (e <= budget || e == used)
    requires forall i :: used <= i < e ==> At(dials, i).rtt.None?
    requires e < budget ==> At(dials, e).rtt.Some?
    ensures FailUntil(dials, used, budget) == e
  {
  }

  /** How many they are: the failures, and the success if there is budget left for one. */
  function DialsMade(dials: nat -> Dial, used: nat, budget: nat): (n: nat)
    ensures used + n <= budget || n == 0
    ensures n == 0 <==> used >= budget
  {
    var e := FailUntil(dials, used, budget);
    if e < budget then e + 1 - used else e - used
  }

  /** With retries 0 standing for 2: all dials of an assignment but the last fail, and the last one
      fails only when the budget is spent. */
  lemma DialsEnd(cfg: Config, dials: nat -> Dial, used: nat)
    requires used < if cfg.retries == 0 then 2 else cfg.retries
    ensures var n := DialsMade(dials, used, Budget(cfg));
            && 0 < n && used + n <= (if cfg.retries == 0 then 2 else cfg.retries)
            && (forall i | used <= i < used + n - 1 :: At(dials, i).rtt.None?)
            && (At(dials, used + n - 1).rtt.None? ==> used + n == if cfg.retries == 0 then 2 else cfg.retries)
            && Success(dials, used, Budget(cfg)) == At(dials, used + n - 1).rtt
  {
  }

  /** The duration of the dial that succeeded, if one did. */
  function Success(dials: nat -> Dial, used: nat, budget: nat): Option<nat> {
    var e := FailUntil(dials, used, budget);
    if e < budget then At(dials, e).rtt else None
  }

  /** What a failed dial to this address does to the pool and to the connections that await an
      asynchronous close. */
  function Fail(cfg: Config, addr: string, w: (Pool, seq<Conn>), at: Time): (Pool, seq<Conn>) {
    (DialFailure(cfg, w.0, addr, at), w.1 + DialSpawned(w.0, addr))
  }

  /** What the failures before dial number e of one assignment leave: the first of them purges,
      and the cooldown counts from the last. */
  function AfterFailures(cfg: Config, addr: string, w: (Pool, seq<Conn>), dials: nat -> Dial, used: nat, e: nat)
    : (Pool, seq<Conn>)
    requires used <= e
  {
    if e == used then w else Fail(cfg, addr, w, At(dials, e - 1).at)
  }

  /** A second failure purges nothing more, and its cooldown takes the place of the first. */
  lemma FailTwice(cfg: Config, p: Pool, addr: string, t: Time, later: Time)
    ensures DialFailure(cfg, DialFailure(cfg, p, addr, t), addr, later) == DialFailure(cfg, p, addr, later)
    ensures DialSpawned(DialFailure(cfg, p, addr, t), addr) == []
  {
    hide AddressOf;
    var i := FirstAt(p.ups, addr);
    if i < |p.ups| {
      var ups := p.ups[i := Cool(cfg, p.ups[i], t)];
      SameFirst(p.ups, ups, addr, i);
      assert ups[i := Cool(cfg, ups[i], later)] == p.ups[i := Cool(cfg, p.ups[i], later)];
    }
  }

  lemma SameFirst(ups: seq<Upstream>, ups': seq<Upstream>, addr: string, i: nat)
    requires i == FirstAt(ups, addr) < |ups| == |ups'| && ups'[i].Address() == addr
    requires forall k | 0 <= k < i :: ups'[k] == ups[k]
    ensures FirstAt(ups', addr) == i
  {
    hide AddressOf;
    FirstAtIs(ups', addr, i);
  }

  lemma FailuresGoOn(cfg: Config, addr: string, w: (Pool, seq<Conn>), dials: nat -> Dial, used: nat, i: nat)
    requires used <= i
    ensures Fail(cfg, addr, AfterFailures(cfg, addr, w, dials, used, i), At(dials, i).at)
         == AfterFailures(cfg, addr, w, dials, used, i + 1)
  {
    hide DialFailure, DialSpawned;
    if i > used {
      FailTwice(cfg, w.0, addr, At(dials, i - 1).at, At(dials, i).at);
      var waiting := w.1 + DialSpawned(w.0, addr);
      assert waiting + [] == waiting;
    }
  }

  /** The part of a query that the two workers use. */
  datatype Query = Query(connectionRetries: nat, conn: ConnEntry?)

  lemma PurgeShrinksTotal(cache: map<string, seq<Conn>>, addr: string)
    ensures Total(Purge(cache, addr)) <= Total(cache)
  {
    if addr in cache {
      TotalUpdate(cache, addr, []);
    }
  }

  lemma PopShrinksTotal(p: Pool, now: Time)
    requires |p.ups| > 0
    ensures var (out, p') := PoolSpec.Get(p, now);
            Total(p'.cache) + (if out.Hit? then 1 else 0) == Total(p.cache)
  {
    var addr := Choose(p, now).Address();
    if |Idle(p.cache, addr)| > 0 {
      TotalUpdate(p.cache, addr, p.cache[addr][1..]);
    }
  }

  /** The number of idle connections. */
  ghost function Pooled(pool: ConnectionPool): nat
    reads pool`cache
  {
    Total(pool.cache)
  }

  lemma PooledView(pool: ConnectionPool)
    ensures Total(pool.View().cache) == Pooled(pool)
  {
    TotalSameSizes(pool.cache, pool.View().cache);
  }

  /** The pool and the connections that await an asynchronous close. */
  ghost function World(pool: ConnectionPool): (Pool, seq<Conn>)
    reads pool, pool.upstreams, Entries(pool.cache), pool.spawned
  {
    (pool.View(), Conns(pool.spawned))
  }

  class PipelineConnector {
    const pool: ConnectionPool

    constructor (pool: ConnectionPool)
      ensures this.pool == pool
    {
      this.pool := pool;
    }

    method DialOnce(upstream: Upstream, dial: Dial) returns (ce: ConnEntry?)
      requires pool.Valid()
      modifies pool`cache, pool`spawned, pool.upstreams
      ensures pool.Valid() && pool.upstreams == old(pool.upstreams) && Pooled(pool) <= old(Pooled(pool))
      ensures Entries(pool.cache) <= old(Entries(pool.cache))
      ensures ce != null <==> dial.rtt.Some?
      ensures ce != null ==> fresh(ce) && ce.View() == NewConn(pool.cfg, 0, upstream.Address(), dial.rtt.value)
      ensures World(pool) == if ce != null then old(World(pool))
                             else Fail(pool.cfg, upstream.Address(), old(World(pool)), dial.at)
    {
      PooledView(pool);
      PurgeShrinksTotal(pool.View().cache, upstream.Address());
      ce := pool.NewConnection(upstream, dial.rtt, 0, dial.at);
      PooledView(pool);
    }

    /** The dial loop of AssignConnection. */
    method DialLoop(q: Query, upstream: Upstream, dials: nat -> Dial) returns (paired: Query, failed: bool)
      requires pool.Valid() && q.conn == null
      modifies pool`cache, pool`spawned, pool.upstreams
      ensures pool.Valid() && pool.upstreams == old(pool.upstreams) && Pooled(pool) <= old(Pooled(pool))
      ensures Entries(pool.cache) <= old(Entries(pool.cache))
      ensures var e := FailUntil(dials, q.connectionRetries, Budget(pool.cfg));
              if e < Budget(pool.cfg) then
                && !failed && paired.connectionRetries == e + 1 && paired.conn != null && fresh(paired.conn)
                && paired.conn.View() == NewConn(pool.cfg, 0, upstream.Address(), At(dials, e).rtt.value)
              else
                (failed <==> e > q.connectionRetries) && paired == q.(connectionRetries := e)
      ensures var used := q.connectionRetries;
              World(pool) == AfterFailures(pool.cfg, upstream.Address(), old(World(pool)), dials, used,
                                           FailUntil(dials, used, Budget(pool.cfg)))
    {
      hide AddressOf, Fail, World;
      ghost var w, address := World(pool), upstream.Address();
      var retries := pool.cfg.retries;
      if retries == 0 {
        retries := 2;
      }
      paired, failed := q, false;
      var i: nat := q.connectionRetries;
      while i < retries
        invariant pool.Valid() && pool.upstreams == old(pool.upstreams) && Pooled(pool) <= old(Pooled(pool))
        invariant Entries(pool.cache) <= old(Entries(pool.cache))
        invariant q.connectionRetries <= i && (i <= retries || i == q.connectionRetries)
        invariant paired == q.(connectionRetries := i) && (failed <==> i > q.connectionRetries)
        invariant forall j :: q.connectionRetries <= j < i ==> At(dials, j).rtt.None?
        invariant World(pool) == AfterFailures(pool.cfg, address, w, dials, q.connectionRetries, i)
        decreases retries - i
      {
        FailuresGoOn(pool.cfg, address, w, dials, q.connectionRetries, i);
        var ce := DialOnce(upstream, At(dials, i));
        paired := paired.(connectionRetries := paired.connectionRetries + 1);
        failed := ce == null;
        if ce != null {
          FailUntilIs(dials, q.connectionRetries, retries, i);
          paired := paired.(conn := ce);
          return;
        }
        i := i + 1;
      }
      FailUntilIs(dials, q.connectionRetries, retries, i);
    }

    /** Gives a query a connection from the pool, or dials one within its budget. When the pool
        has none and the budget is spent, it reports success without a connection. */
    method AssignConnection(q: Query, dials: nat -> Dial, now: Time)
      returns (paired: Query, failed: bool, ghost made: nat)
      requires pool.Valid() && |pool.upstreams| > 0
      modifies pool`cache, pool`spawned, pool.upstreams
      ensures pool.Valid() && pool.upstreams == old(pool.upstreams)
      ensures Entries(pool.cache) <= old(Entries(pool.cache))
      ensures paired.conn != null ==> paired.conn in old(Entries(pool.cache)) || fresh(paired.conn)
      ensures if failed then paired == Query(0, null) else paired.connectionRetries == q.connectionRetries + made
      ensures var (out, p) := PoolSpec.Get(old(pool.View()), now);
              match out
              case Hit(ce) =>
                && made == 0 && !failed && paired.conn != null && paired.conn.View() == ce
                && pool.View() == p && Conns(pool.spawned) == old(Conns(pool.spawned))
                && Pooled(pool) + 1 == old(Pooled(pool))
              case Miss(u) =>
                && Pooled(pool) <= old(Pooled(pool))
                && World(pool) == AfterFailures(pool.cfg, u.Address(), old(World(pool)), dials, q.connectionRetries,
                                                FailUntil(dials, q.connectionRetries, Budget(pool.cfg)))
                && made == DialsMade(dials, q.connectionRetries, Budget(pool.cfg))
                && var rtt := Success(dials, q.connectionRetries, Budget(pool.cfg));
                && (failed <==> made > 0 && rtt.None?)
                && (paired.conn == null <==> rtt.None?)
                && (paired.conn != null ==> paired.conn.View() == NewConn(pool.cfg, 0, u.Address(), rtt.value))
    {
      PooledView(pool);
      PopShrinksTotal(pool.View(), now);
      var ce, upstream := pool.Get(now);
      PooledView(pool);
      paired, failed, made := q.(conn := ce), false, 0;
      if !upstream.IsZero() {
        paired, failed := DialLoop(paired, upstream, dials);
        made := paired.connectionRetries - q.connectionRetries;
        if failed {
          paired := Query(0, null);
        }
      }
    }
  }

  /** The exchange of PipelineQuerier.Query. */
  method QueryUpstream(q: Query, cfg: Config, rtt: nat, answered: bool) returns (query: Query)
    requires q.conn != null
    modifies q.conn
    ensures q.conn.View() == old(q.conn.View()).AddExchange(cfg, rtt)
    ensures query == if answered then q else q.(connectionRetries := q.connectionRetries + 1)
  {
    query := q;
    q.conn.AddExchange(cfg, rtt);
    if !answered {
      query := query.(connectionRetries := query.connectionRetries + 1);
    }
  }

  /** What the network does in one round of the cycle. */
  datatype Round = Round(dials: nat -> Dial, rtt: nat, answered: bool, at: Time)

  datatype Ending = Answered | DialsFailed | NoConnection

  /** The connection a round gets for a query with counter `used` when it meets this pool: an
      idle one, or the first that can be dialed. */
  function Gained(cfg: Config, p: Pool, round: Round, used: nat): Option<Conn>
    requires |p.ups| > 0
  {
    match PoolSpec.Get(p, round.at).0
    case Hit(ce) => Some(ce)
    case Miss(u) =>
      match Success(round.dials, used, Budget(cfg))
      case Some(rtt) => Some(NewConn(cfg, 0, u.Address(), rtt))
      case None => None
  }

  /** The dials it makes. */
  function Spent(cfg: Config, p: Pool, round: Round, used: nat): nat
    requires |p.ups| > 0
  {
    if PoolSpec.Get(p, round.at).0.Hit? then 0 else DialsMade(round.dials, used, Budget(cfg))
  }

  /** How it ends the query's life; None when a failed exchange sends the query back. */
  function EndOf(cfg: Config, p: Pool, round: Round, used: nat): Option<Ending>
    requires |p.ups| > 0
  {
    if Gained(cfg, p, round, used).Some? then if round.answered then Some(Answered) else None
    else if used < Budget(cfg) then Some(DialsFailed)
    else Some(NoConnection)
  }

  lemma SpentWithinBudget(cfg: Config, p: Pool, round: Round, used: nat)
    requires |p.ups| > 0 && used <= Budget(cfg)
    ensures used + Spent(cfg, p, round, used) <= Budget(cfg)
    ensures Gained(cfg, p, round, used).None? ==> used + Spent(cfg, p, round, used) == Budget(cfg)
    ensures Gained(cfg, p, round, used).Some? ==>
              (Spent(cfg, p, round, used) == 0 <==> PoolSpec.Get(p, round.at).0.Hit?)
  {
  }

  /** One round: an assignment and, when it gave a connection, an exchange. A failed exchange
      sends the query back as it was before the exchange, so it costs nothing exactly when the
      connection was an idle one. */
  method RunRound(connector: PipelineConnector, q: Query, round: Round)
    returns (end: Option<Ending>, next: Query, ghost made: nat)
    requires connector.pool.Valid() && |connector.pool.upstreams| > 0
    requires q.connectionRetries <= Budget(connector.pool.cfg)
    modifies connector.pool`cache, connector.pool`spawned, connector.pool.upstreams, Entries(connector.pool.cache)
    ensures var pool := connector.pool;
            && pool.Valid() && pool.upstreams == old(pool.upstreams) && Entries(pool.cache) <= old(Entries(pool.cache))
    ensures var cfg, p, used := connector.pool.cfg, old(connector.pool.View()), q.connectionRetries;
            && made == Spent(cfg, p, round, used) && end == EndOf(cfg, p, round, used)
            && match Gained(cfg, p, round, used)
               case Some(ce) =>
                 && next.conn != null && next.conn.View() == ce.AddExchange(cfg, round.rtt)
                 && next.connectionRetries == used + made
               case None => next.conn == null
    ensures end == Some(Answered) <==> next.conn != null && round.answered
    ensures end.None? <==> next.conn != null && !round.answered
    ensures end == Some(DialsFailed) <==> next.conn == null && made > 0
    ensures end == Some(NoConnection) <==> next.conn == null && made == 0
    ensures end.None? ==>
              (next.connectionRetries == q.connectionRetries <==> PoolSpec.Get(old(connector.pool.View()), round.at).0.Hit?)
    ensures q.connectionRetries + made <= Budget(connector.pool.cfg)
    ensures end.None? ==>
              Pooled(connector.pool) + q.connectionRetries < old(Pooled(connector.pool)) + next.connectionRetries
  {
    ghost var p, cfg := connector.pool.View(), connector.pool.cfg;
    SpentWithinBudget(cfg, p, round, q.connectionRetries);
    var failed;
    next, failed, made := connector.AssignConnection(q, round.dials, round.at);
    if failed {
      end := Some(DialsFailed);
    } else if next.conn == null {
      end := Some(NoConnection);
    } else {
      var query := QueryUpstream(next, connector.pool.cfg, round.rtt, round.answered);
      end := if round.answered then Some(Answered) else None;
    }
  }

  /** This object is the connection that was got. */
  ghost predicate GotAs(got: Option<Conn>, ce: ConnEntry) {
    got.Some? && got.value.id == ce.id && got.value.addr == ce.GetAddress()
  }

  /** What comes of a round. */
  datatype Outcome = Outcome(made: nat, got: Option<Conn>, end: Option<Ending>)

  /** The rule that says what comes of a round, given the pool it meets and the query's counter. */
  function Play(cfg: Config): (Pool, Round, nat) -> Outcome {
    (p: Pool, round: Round, used: nat) =>
      if |p.ups| == 0 then Outcome(0, None, None)
      else Outcome(Spent(cfg, p, round, used), Gained(cfg, p, round, used), EndOf(cfg, p, round, used))
  }

  lemma PlayIs(cfg: Config, p: Pool, round: Round, used: nat)
    requires |p.ups| > 0
    ensures Play(cfg)(p, round, used)
         == Outcome(Spent(cfg, p, round, used), Gained(cfg, p, round, used), EndOf(cfg, p, round, used))
  {
  }

  /** The rounds of a query: the pool each of them met, the dials it made, and the connection it
      lost, if its exchange failed. */
  datatype Story = Over | Met(p: Pool, made: nat, lost: Option<ConnEntry>, rest: Story)
  {
    function Rounds(): nat {
      match this
      case Over => 0
      case Met(_, _, _, rest) => 1 + rest.Rounds()
    }

    function Dials(): nat {
      match this
      case Over => 0
      case Met(_, made, _, rest) => made + rest.Dials()
    }
  }

  /** From round i on, with counter `used`, the query had these rounds, which ended like this.
      The query was answered exactly when its last round got a connection and the exchange was
      answered. Every connection a round got is that one, or is lost with the failed exchange of
      that round. */
  ghost predicate Told(play: (Pool, Round, nat) -> Outcome, script: nat -> Round, i: nat, used: nat, s: Story,
                       end: Option<Ending>)
    decreases s
  {
    match s
    case Over => end.None?
    case Met(p, made, lost, rest) =>
      var o := play(p, At(script, i), used);
      && made == o.made
      && match lost
         case None =>
           && rest.Over? && end == o.end && end.Some?
           && (end == Some(Answered) <==> o.got.Some? && At(script, i).answered)
         case Some(ce) =>
           && o.end.None? && GotAs(o.got, ce) && !At(script, i).answered
           && Told(play, script, i + 1, used + made, rest, end)
  }

  lemma ToldOn(play: (Pool, Round, nat) -> Outcome, script: nat -> Round, i: nat, used: nat, p: Pool, made: nat,
               ce: ConnEntry, counter: nat, rest: Story, end: Option<Ending>)
    requires var o := play(p, At(script, i), used); made == o.made && o.end.None? && GotAs(o.got, ce)
    requires !At(script, i).answered
    requires counter == used + made && Told(play, script, i + 1, counter, rest, end)
    ensures Told(play, script, i, used, Met(p, made, Some(ce), rest), end)
  {
  }

  lemma ToldLast(play: (Pool, Round, nat) -> Outcome, script: nat -> Round, i: nat, used: nat, p: Pool, made: nat,
                 end: Ending)
    requires var o := play(p, At(script, i), used);
             made == o.made && o.end == Some(end) && (end == Answered <==> o.got.Some? && At(script, i).answered)
    ensures Told(play, script, i, used, Met(p, made, None, Over), Some(end))
  {
  }

  /** No round but the last was answered, and that one was if the query was. */
  lemma {:induction false} ToldAnswered(play: (Pool, Round, nat) -> Outcome, script: nat -> Round, i: nat, used: nat,
                                        s: Story, end: Option<Ending>)
    requires Told(play, script, i, used, s, end)
    ensures forall m | i <= m < i + s.Rounds() :: At(script, m).answered ==> m == i + s.Rounds() - 1 && end.Some?
    ensures end == Some(Answered) ==> s.Met? && At(script, i + s.Rounds() - 1).answered
    decreases s
  {
    if s.Met? && s.lost.Some? {
      ToldAnswered(play, script, i + 1, used + s.made, s.rest, end);
    }
  }

  /** A lone query on its way round connector and querier, with nobody adding connections, from
      round i on. It comes to an end: each round pops an idle connection or spends budget, so at
      most `pooled + budget` rounds send it back, and there are at most `budget` dials in all. */
  method Cycle(connector: PipelineConnector, q: Query, script: nat -> Round, i: nat)
    returns (end: Ending, ghost s: Story)
    requires connector.pool.Valid() && |connector.pool.upstreams| > 0
    requires q.connectionRetries <= Budget(connector.pool.cfg)
    modifies connector.pool`cache, connector.pool`spawned, connector.pool.upstreams, Entries(connector.pool.cache)
    ensures Told(Play(connector.pool.cfg), script, i, q.connectionRetries, s, Some(end))
    ensures s.Met? && s.p == old(connector.pool.View())
    ensures q.connectionRetries + s.Dials() <= Budget(connector.pool.cfg)
    ensures s.Rounds() <= 1 + old(Pooled(connector.pool)) + Budget(connector.pool.cfg) - q.connectionRetries
    decreases Pooled(connector.pool) + Budget(connector.pool.cfg) - q.connectionRetries
  {
    ghost var p, used := connector.pool.View(), q.connectionRetries;
    PlayIs(connector.pool.cfg, p, At(script, i), used);
    var over, next, made := RunRound(connector, q, At(script, i));
    if over.Some? {
      ToldLast(Play(connector.pool.cfg), script, i, used, p, made, over.value);
      return over.value, Met(p, made, None, Over);
    }
    ghost var ce, counter := next.conn, next.connectionRetries;
    assert GotAs(Gained(connector.pool.cfg, p, At(script, i), used), ce);
    ghost var rest;
    end, rest := Cycle(connector, next, script, i + 1);
    ToldOn(Play(connector.pool.cfg), script, i, used, p, made, ce, counter, rest, Some(end));
    s := Met(p, made, Some(ce), rest);
  }

  /** What other queries, purges and asynchronous closes made of the pool by some time: its
      records in any order, with any weights and wakeup times, and any idle lists. */
  datatype Elsewhere = Elsewhere(
    upstreams: seq<UpstreamRecord>,
    weight: nat -> real,
    wakeup: nat -> Time,
    cache: map<string, seq<ConnEntry>>,
    spawned: seq<ConnEntry>)
  {
    ghost predicate Fits(records: seq<UpstreamRecord>, conns: set<ConnEntry>) {
      && multiset(upstreams) == multiset(records) && Entries(cache) <= conns
      && forall i, j :: 0 <= i < j < |upstreams| ==> upstreams[i] != upstreams[j]
    }

    /** A pool looks like this: its records, and how many connections are idle where. */
    ghost predicate Shows(p: Pool) {
      && |p.ups| == |upstreams|
      && (forall i | 0 <= i < |upstreams| ::
            var u := upstreams[i]; p.ups[i] == Upstream(u.ref, u.name, u.port, weight(u.ref), wakeup(u.ref)))
      && p.cache.Keys == cache.Keys && forall a | a in cache :: |p.cache[a]| == |cache[a]|
    }
  }

  lemma SameRecords(us: seq<UpstreamRecord>, vs: seq<UpstreamRecord>)
    requires multiset(us) == multiset(vs)
    ensures |us| == |vs| && forall i | 0 <= i < |us| :: us[i] in vs
  {
    assert |us| == |multiset(us)| && |vs| == |multiset(vs)|;
    assert forall i | 0 <= i < |us| :: us[i] in multiset(us) && us[i] in multiset(vs);
  }

  method Interfere(pool: ConnectionPool, e: Elsewhere, ghost conns: set<ConnEntry>)
    requires pool.Valid() && e.Fits(pool.upstreams, conns)
    modifies pool`upstreams, pool`cache, pool`spawned, pool.upstreams
    ensures pool.Valid() && pool.upstreams == e.upstreams && pool.cache == e.cache && pool.spawned == e.spawned
    ensures forall u | u in pool.upstreams :: u.weight == e.weight(u.ref) && u.wakeup == e.wakeup(u.ref)
  {
    hide AddressOf;
    SameRecords(e.upstreams, pool.upstreams);
    assert forall i | 0 <= i < |e.upstreams| :: e.upstreams[i].name != "";
    forall u | u in pool.upstreams {
      u.weight := e.weight(u.ref);
    }
    forall u | u in pool.upstreams {
      u.wakeup := e.wakeup(u.ref);
    }
    pool.upstreams, pool.cache, pool.spawned := e.upstreams, e.cache, e.spawned;
  }

  ghost predicate FitsAt(others: nat -> Elsewhere, k: nat, records: seq<UpstreamRecord>, conns: set<ConnEntry>) {
    At(others, k).Fits(records, conns)
  }

  lemma FitAgain(others: nat -> Elsewhere, us: seq<UpstreamRecord>, vs: seq<UpstreamRecord>, conns: set<ConnEntry>)
    requires multiset(us) == multiset(vs) && forall k :: FitsAt(others, k, us, conns)
    ensures forall k :: FitsAt(others, k, vs, conns)
  {
    forall k: nat ensures FitsAt(others, k, vs, conns) {
      assert FitsAt(others, k, us, conns);
    }
  }

  /** The pool a round meets after others have worked. */
  method Meet(pool: ConnectionPool, e: Elsewhere, ghost conns: set<ConnEntry>) returns (ghost p: Pool)
    requires pool.Valid() && |pool.upstreams| > 0 && e.Fits(pool.upstreams, conns)
    modifies pool`upstreams, pool`cache, pool`spawned, pool.upstreams
    ensures pool.Valid() && pool.upstreams == e.upstreams && pool.cache == e.cache
    ensures p == pool.View() && e.Shows(p) && |p.ups| == |pool.upstreams| > 0
  {
    Interfere(pool, e, conns);
    SameRecords(pool.upstreams, old(pool.upstreams));
    p := pool.View();
  }

  /** Others work, then the query has a round. */
  method RoundAmong(connector: PipelineConnector, q: Query, round: Round, e: Elsewhere, ghost conns: set<ConnEntry>)
    returns (end: Option<Ending>, next: Query, ghost made: nat, ghost p: Pool)
    requires connector.pool.Valid() && |connector.pool.upstreams| > 0 && e.Fits(connector.pool.upstreams, conns)
    requires q.connectionRetries <= Budget(connector.pool.cfg)
    modifies connector.pool`upstreams, connector.pool`cache, connector.pool`spawned, connector.pool.upstreams, conns
    ensures connector.pool.Valid() && connector.pool.upstreams == e.upstreams && e.Shows(p)
    ensures |p.ups| == |connector.pool.upstreams| > 0
    ensures var cfg, used := connector.pool.cfg, q.connectionRetries;
            && used + made <= Budget(cfg)
            && Play(cfg)(p, round, used).made == made && Play(cfg)(p, round, used).end == end
            && (end == Some(Answered) <==> Play(cfg)(p, round, used).got.Some? && round.answered)
            && (end.None? ==> next.conn != null && !round.answered && next.connectionRetries == used + made
                              && GotAs(Play(cfg)(p, round, used).got, next.conn))
  {
    hide AddressOf, Lists, RecordViews, Spent;
    p := Meet(connector.pool, e, conns);
    SameRecords(connector.pool.upstreams, old(connector.pool.upstreams));
    PlayIs(connector.pool.cfg, p, round, q.connectionRetries);
    end, next, made := RunRound(connector, q, round);
  }

  /** From round i on, these rounds met what others had made of the pool. */
  ghost predicate Among(others: nat -> Elsewhere, i: nat, s: Story)
    decreases s
  {
    match s
    case Over => true
    case Met(p, _, _, rest) => At(others, i).Shows(p) && Among(others, i + 1, rest)
  }

  /** A query's life among others, from round i on. Whatever happens to the pool between its
      rounds, and however many rounds that gives it, the dials made for it are those of its rounds
      and never exceed the budget. */
  method Life(connector: PipelineConnector, q: Query, script: nat -> Round, others: nat -> Elsewhere,
              i: nat, n: nat, ghost conns: set<ConnEntry>)
    returns (end: Option<Ending>, ghost s: Story)
    requires connector.pool.Valid() && |connector.pool.upstreams| > 0 && i <= n
    requires q.connectionRetries <= Budget(connector.pool.cfg)
    requires forall k :: FitsAt(others, k, connector.pool.upstreams, conns)
    modifies connector.pool`upstreams, connector.pool`cache, connector.pool`spawned, connector.pool.upstreams, conns
    ensures Told(Play(connector.pool.cfg), script, i, q.connectionRetries, s, end) && Among(others, i, s)
    ensures s.Rounds() <= n - i && (end.None? ==> s.Rounds() == n - i)
    ensures q.connectionRetries + s.Dials() <= Budget(connector.pool.cfg)
    decreases n - i
  {
    end, s := None, Over;
    if i < n {
      assert FitsAt(others, i, connector.pool.upstreams, conns);
      var next;
      ghost var made, p, rest;
      end, next, made, p := RoundAmong(connector, q, At(script, i), At(others, i), conns);
      s := Met(p, made, None, Over);
      if end.Some? {
        ToldLast(Play(connector.pool.cfg), script, i, q.connectionRetries, p, made, end.value);
      } else {
        ghost var ce, counter := next.conn, next.connectionRetries;
        SameRecords(connector.pool.upstreams, old(connector.pool.upstreams));
        FitAgain(others, old(connector.pool.upstreams), connector.pool.upstreams, conns);
        end, rest := Life(connector, next, script, others, i + 1, n, conns);
        ToldOn(Play(connector.pool.cfg), script, i, q.connectionRetries, p, made, ce, counter, rest, end);
        s := Met(p, made, Some(ce), rest);
      }
    }
  }
}
