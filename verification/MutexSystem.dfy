/** The mutex server and its connection pool as one interleaved transition system. Every
    lock-protected pool operation is one step, every goroutine spawned by a purge is a later
    step of its own, and each step reads a clock that never goes back. */
module MutexSystem {
  import opened PoolSpec
  import opened Counting

  datatype Outcome = Cached | Answered | Failed

  /** Where a query stands. `i` is the attempt number of the retry loop. */
  datatype Phase =
    | Admitted                      // holds the semaphore, has not looked at the caches
    | NeedConn(i: nat)              // about to call Get
    | Dialing(i: nat, addr: string) // Get missed, the dial is in progress
    | Exchanging(i: nat, ce: Conn)
    | Closing(i: nat, ce: Conn)     // exchange failed, connection flagged, to be closed
    | Adding(i: nat, ce: Conn)      // exchange succeeded, connection to be added
    | Done(out: Outcome)            // finished, still holds the semaphore
    | Released(out: Outcome)
  {
    predicate HasConn() {
      Exchanging? || Closing? || Adding?
    }

    predicate Active() {
      !Released?
    }
  }

  datatype State = State(
    clock: Time,
    pool: Pool,
    pending: seq<Conn>,       // spawned CloseConnection calls that have not run yet
    closed: multiset<nat>,    // one element for each Close of a socket
    queries: map<nat, Phase>,
    sem: nat,                 // free semaphore slots
    dialed: seq<string>)      // address of every successful dial, by connection id

  datatype Action =
    | Acquire(q: nat)
    | Lookup(q: nat, hit: bool)
    | Take(q: nat)
    | DialOk(q: nat, rtt: nat)
    | DialFail(q: nat)
    | Exchange(q: nat, rtt: nat, ok: bool)
    | Close(q: nat)
    | Return(q: nat)
    | AsyncClose(k: nat)
    | Release(q: nat)

  ghost predicate Init(cfg: Config, s: State) {
    && |s.pool.ups| > 0 && Distinct(s.pool.ups)
    && (forall u | u in s.pool.ups :: u.name != "" && u.weight == 0.0 && u.wakeup == 0)
    && s.pool.cache == map[] && s.pending == [] && s.closed == multiset{} && s.dialed == []
    && s.queries == map[] && s.sem == cfg.concurrency && s.clock >= 0
  }

  function Retry(cfg: Config, i: nat): Phase {
    if i < cfg.retries then NeedConn(i + 1) else Done(Failed)
  }

  /** The steps that leave the pool, the goroutines and the sockets alone. */
  ghost predicate LocalStep(s: State, q: nat, from: Phase, to: Phase, s': State) {
    && q in s.queries && s.queries[q] == from
    && s' == s.(clock := s'.clock, queries := s.queries[q := to])
  }

  ghost predicate AcquireStep(s: State, q: nat, s': State) {
    && q !in s.queries && s.sem > 0
    && s' == s.(clock := s'.clock, sem := s.sem - 1, queries := s.queries[q := Admitted])
  }

  ghost predicate ReleaseStep(s: State, q: nat, s': State) {
    && q in s.queries && s.queries[q].Done?
    && s' == s.(clock := s'.clock, sem := s.sem + 1, queries := s.queries[q := Released(s.queries[q].out)])
  }

  function Taken(i: nat, out: GetOutcome): Phase {
    match out
    case Hit(ce) => Exchanging(i, ce)
    case Miss(u) => Dialing(i, u.Address())
  }

  ghost predicate TakeStep(s: State, q: nat, s': State) {
    && q in s.queries && s.queries[q].NeedConn? && |s.pool.ups| > 0
    && var (out, p) := Get(s.pool, s'.clock);
       s' == s.(clock := s'.clock, pool := p, queries := s.queries[q := Taken(s.queries[q].i, out)])
  }

  ghost predicate DialOkStep(cfg: Config, s: State, q: nat, rtt: nat, s': State) {
    && q in s.queries && s.queries[q].Dialing?
    && var ph := s.queries[q];
       s' == s.(clock := s'.clock, dialed := s.dialed + [ph.addr],
                queries := s.queries[q := Exchanging(ph.i, NewConn(cfg, |s.dialed|, ph.addr, rtt))])
  }

  ghost predicate DialFailStep(cfg: Config, s: State, q: nat, s': State) {
    && q in s.queries && s.queries[q].Dialing?
    && var ph := s.queries[q];
       s' == s.(clock := s'.clock, pool := DialFailure(cfg, s.pool, ph.addr, s'.clock),
                pending := s.pending + DialSpawned(s.pool, ph.addr),
                queries := s.queries[q := Retry(cfg, ph.i)])
  }

  function Exchanged(cfg: Config, ph: Phase, rtt: nat, ok: bool): Phase
    requires ph.Exchanging?
  {
    var ce := ph.ce.AddExchange(cfg, rtt);
    if ok then Adding(ph.i, ce) else Closing(ph.i, ce.(err := true))
  }

  ghost predicate ExchangeStep(cfg: Config, s: State, q: nat, rtt: nat, ok: bool, s': State) {
    && q in s.queries && s.queries[q].Exchanging?
    && LocalStep(s, q, s.queries[q], Exchanged(cfg, s.queries[q], rtt, ok), s')
  }

  ghost predicate QueryCloseStep(cfg: Config, s: State, q: nat, s': State) {
    && q in s.queries && s.queries[q].Closing?
    && var ph := s.queries[q];
    && CloseStep(cfg, s.pool, ph.ce, s'.clock, s'.pool)
    && s' == s.(clock := s'.clock, pool := s'.pool, pending := s.pending + Spawned(s.pool, ph.ce),
                closed := s.closed + multiset{ph.ce.id}, queries := s.queries[q := Retry(cfg, ph.i)])
  }

  ghost predicate ReturnStep(cfg: Config, s: State, q: nat, s': State) {
    && q in s.queries && s.queries[q].Adding?
    && var ph := s.queries[q];
    && AddStep(cfg, s.pool, ph.ce, s'.clock, s'.pool)
    && s' == s.(clock := s'.clock, pool := s'.pool, pending := s.pending + Spawned(s.pool, ph.ce),
                queries := s.queries[q := Done(Answered)])
  }

  ghost predicate AsyncCloseStep(cfg: Config, s: State, k: nat, s': State) {
    && k < |s.pending|
    && var ce := s.pending[k];
    && CloseStep(cfg, s.pool, ce, s'.clock, s'.pool)
    && s' == s.(clock := s'.clock, pool := s'.pool,
                pending := s.pending[..k] + s.pending[k + 1..] + Spawned(s.pool, ce),
                closed := s.closed + multiset{ce.id})
  }

  ghost predicate Next(cfg: Config, s: State, act: Action, s': State) {
    && s'.clock >= s.clock
    && match act
       case Acquire(q) => AcquireStep(s, q, s')
       case Lookup(q, hit) => LocalStep(s, q, Admitted, if hit then Done(Cached) else NeedConn(0), s')
       case Take(q) => TakeStep(s, q, s')
       case DialOk(q, rtt) => DialOkStep(cfg, s, q, rtt, s')
       case DialFail(q) => DialFailStep(cfg, s, q, s')
       case Exchange(q, rtt, ok) => ExchangeStep(cfg, s, q, rtt, ok, s')
       case Close(q) => QueryCloseStep(cfg, s, q, s')
       case Return(q) => ReturnStep(cfg, s, q, s')
       case AsyncClose(k) => AsyncCloseStep(cfg, s, k, s')
       case Release(q) => ReleaseStep(s, q, s')
  }

  ghost predicate StepAt(cfg: Config, tr: seq<State>, acts: seq<Action>, k: nat)
    requires |tr| == |acts| + 1 && k < |acts|
  {
    Next(cfg, tr[k], acts[k], tr[k + 1])
  }

  /** A path is a sequence of states linked by actions, a run is a path from an initial state. */
  ghost predicate Path(cfg: Config, tr: seq<State>, acts: seq<Action>) {
    && |tr| == |acts| + 1
    && forall k :: 0 <= k < |acts| ==> StepAt(cfg, tr, acts, k)
  }

  ghost predicate Run(cfg: Config, tr: seq<State>, acts: seq<Action>) {
    Path(cfg, tr, acts) && Init(cfg, tr[0])
  }

  lemma ExtendRun(cfg: Config, tr: seq<State>, acts: seq<Action>, act: Action, s: State)
    requires Run(cfg, tr, acts) && Next(cfg, tr[|acts|], act, s)
    ensures Run(cfg, tr + [s], acts + [act])
  {
    var tr', acts' := tr + [s], acts + [act];
    forall k | 0 <= k < |acts'| ensures StepAt(cfg, tr', acts', k) {
      if k < |acts| {
        assert StepAt(cfg, tr, acts, k);
      }
    }
  }

  // --------------------------------------------------------------- counting

  function IsActive(): Phase -> bool {
    (ph: Phase) => ph.Active()
  }

  /** Queries that hold a connection to an address or are dialing it. */
  function Uses(addr: string): Phase -> bool {
    (ph: Phase) => (ph.HasConn() && ph.ce.addr == addr) || (ph.Dialing? && ph.addr == addr)
  }

  function Holds(id: nat): Phase -> bool {
    (ph: Phase) => ph.HasConn() && ph.ce.id == id
  }

  /** Idle connections to an address, those held by queries, and dials in progress. */
  ghost function Load(s: State, addr: string): nat {
    |Idle(s.pool.cache, addr)| + Count(s.queries, Uses(addr))
  }

  /** In how many places connection `id` is: idle under its own address, held by queries,
      awaiting an asynchronous close, closed. */
  ghost function Places(s: State, id: nat): nat
    requires id < |s.dialed|
  {
    Occ(Idle(s.pool.cache, s.dialed[id]), id) + Count(s.queries, Holds(id)) + Occ(s.pending, id) + s.closed[id]
  }

  // -------------------------------------------------------------- invariant

  /** A connection that was dialed under its own id, to a registered address. */
  ghost predicate Genuine(cfg: Config, dialed: seq<string>, addrs: set<string>, ce: Conn) {
    ce.id < |dialed| && dialed[ce.id] == ce.addr && ce.addr in addrs && ce.Honest(cfg)
  }

  ghost predicate AllGenuine(cfg: Config, dialed: seq<string>, addrs: set<string>, cs: seq<Conn>) {
    forall k | 0 <= k < |cs| :: Genuine(cfg, dialed, addrs, cs[k])
  }

  ghost predicate CachePlaced(cfg: Config, dialed: seq<string>, addrs: set<string>, cache: map<string, seq<Conn>>) {
    forall a | a in cache ::
      && a in addrs
      && AllGenuine(cfg, dialed, addrs, cache[a])
      && forall k | 0 <= k < |cache[a]| :: cache[a][k].addr == a
  }

  ghost predicate PhasePlaced(cfg: Config, dialed: seq<string>, addrs: set<string>, ph: Phase) {
    && (ph.HasConn() ==> Genuine(cfg, dialed, addrs, ph.ce))
    && (ph.Dialing? ==> ph.addr in addrs)
  }

  ghost predicate QueriesPlaced(cfg: Config, dialed: seq<string>, addrs: set<string>, queries: map<nat, Phase>) {
    forall q | q in queries :: PhasePlaced(cfg, dialed, addrs, queries[q])
  }

  ghost predicate WellPlaced(cfg: Config, s: State) {
    && CachePlaced(cfg, s.dialed, Addresses(s.pool.ups), s.pool.cache)
    && QueriesPlaced(cfg, s.dialed, Addresses(s.pool.ups), s.queries)
    && AllGenuine(cfg, s.dialed, Addresses(s.pool.ups), s.pending)
    && (forall id | id in s.closed :: id < |s.dialed|)
  }

  ghost predicate Conserved(s: State) {
    forall id | 0 <= id < |s.dialed| :: Places(s, id) == 1
  }

  ghost predicate SlotsCounted(cfg: Config, s: State) {
    s.sem + Count(s.queries, IsActive()) == cfg.concurrency
  }

  ghost predicate LoadBounded(cfg: Config, s: State) {
    forall addr :: Load(s, addr) <= cfg.concurrency
  }

  /** Only the head of an idle list can be errored. */
  ghost predicate ErrorsAtHead(cache: map<string, seq<Conn>>) {
    forall a, k | a in cache && 0 < k < |cache[a]| :: !cache[a][k].err
  }

  ghost predicate Records(cfg: Config, ups: seq<Upstream>, clock: Time) {
    && |ups| > 0 && Distinct(ups) && Sorted(ups)
    && (forall u | u in ups :: u.name != "" && u.wakeup <= clock + cfg.CooldownPeriod())
  }

  ghost predicate Attempts(cfg: Config, s: State) {
    forall q | q in s.queries ::
      var ph := s.queries[q];
      && (ph.NeedConn? || ph.Dialing? || ph.HasConn() ==> ph.i <= cfg.retries)
      && (ph.Closing? ==> ph.ce.err)
  }

  ghost predicate Inv(cfg: Config, s: State) {
    && Records(cfg, s.pool.ups, s.clock)
    && WellPlaced(cfg, s)
    && Conserved(s)
    && SlotsCounted(cfg, s)
    && LoadBounded(cfg, s)
    && ErrorsAtHead(s.pool.cache)
    && Attempts(cfg, s)
  }
}
