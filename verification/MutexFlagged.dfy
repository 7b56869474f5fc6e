/** What becomes of flagged connections. A failure is meant to sever all connections to its
    upstream, and a flagged connection is meant to be treated as a bogus one. Both fail for a
    connection that is flagged and then returned to the pool. */
module MutexFlagged {
  import opened PoolSpec
  import opened MutexSystem
  import opened MutexInvariant
  import opened MutexRuns
  import opened MutexSelection

  lemma StepSevers(cfg: Config, s: State, act: Action, s': State)
    requires Next(cfg, s, act, s') && Failing(s, act).Some?
    requires TouchedAddress(s, act).Some? && Known(s.pool.ups, TouchedAddress(s, act).value)
    ensures !act.Return? ==> Idle(s'.pool.cache, Failing(s, act).value) == []
    ensures act.Return? ==> ReportOf(s, act).Some? && Idle(s'.pool.cache, Failing(s, act).value) == [ReportOf(s, act).value]
  {
  }

  /** A failure leaves no idle connection to its address exactly when it is not the return of a
      flagged connection; after such a return that very connection is the one left. */
  lemma SeversIff(cfg: Config, tr: seq<State>, acts: seq<Action>, k: nat)
    requires Run(cfg, tr, acts) && k < |acts| && Failing(tr[k], acts[k]).Some?
    ensures var conns := Idle(tr[k + 1].pool.cache, Failing(tr[k], acts[k]).value);
            && (conns == [] <==> !acts[k].Return?)
            && (acts[k].Return? ==> ReportOf(tr[k], acts[k]).Some? && conns == [ReportOf(tr[k], acts[k]).value])
  {
    RunInv(cfg, tr, acts, k);
    AddressesKnown(cfg, tr[k], acts[k]);
    assert StepAt(cfg, tr, acts, k);
    StepSevers(cfg, tr[k], acts[k], tr[k + 1]);
  }

  /** These connections are as they were when they were last returned. */
  ghost predicate AsReturned(tr: seq<State>, acts: seq<Action>, k: nat, conns: seq<Conn>)
    requires k <= |acts| <= |tr|
  {
    forall i | 0 <= i < |conns| ::
      var r := ReturnedAt(tr, acts, k, conns[i].id);
      r.Some? && ReportOf(tr[r.value], acts[r.value]) == Some(conns[i])
  }

  lemma AsReturnedKept(tr: seq<State>, acts: seq<Action>, k: nat, conns: seq<Conn>)
    requires k < |acts| <= |tr| && AsReturned(tr, acts, k, conns)
    requires forall i | 0 <= i < |conns| :: !Returns(tr[k], acts[k], conns[i].id)
    ensures AsReturned(tr, acts, k + 1, conns)
  {
    forall i | 0 <= i < |conns|
      ensures ReturnedAt(tr, acts, k + 1, conns[i].id) == ReturnedAt(tr, acts, k, conns[i].id)
    {
    }
  }

  lemma AsReturnedStep(tr: seq<State>, acts: seq<Action>, k: nat, conns: seq<Conn>, conns': seq<Conn>)
    requires k < |acts| <= |tr| && AsReturned(tr, acts, k, conns) && Moves(tr[k], acts[k], conns, conns')
    requires forall i | 0 <= i < |conns| :: !Returns(tr[k], acts[k], conns[i].id)
    ensures AsReturned(tr, acts, k + 1, conns')
  {
    AsReturnedKept(tr, acts, k, conns);
    if conns' != conns && conns' != [] && (|conns| == 0 || conns' != conns[1..]) {
      var ce := tr[k].queries[acts[k].q].ce;
      assert ReturnedAt(tr, acts, k + 1, ce.id) == Some(k);
    }
  }

  /** Every idle connection is what it was when it was last returned, its flag included. */
  lemma {:induction false} IdleAsReturned(cfg: Config, tr: seq<State>, acts: seq<Action>, k: nat, a: string)
    requires Run(cfg, tr, acts) && k < |tr|
    ensures AsReturned(tr, acts, k, Idle(tr[k].pool.cache, a))
  {
    if k > 0 {
      var j := k - 1;
      var conns := Idle(tr[j].pool.cache, a);
      IdleAsReturned(cfg, tr, acts, j, a);
      assert AsReturned(tr, acts, j, conns);
      ListStep(cfg, tr, acts, j, a);
      assert Moves(tr[j], acts[j], conns, Idle(tr[k].pool.cache, a));
      AsReturnedStep(tr, acts, j, conns, Idle(tr[k].pool.cache, a));
    }
  }

  /** What a hit hands out: the head of the list of the chosen upstream. */
  lemma HitIsHead(cfg: Config, tr: seq<State>, acts: seq<Action>, k: nat, q: nat)
    requires Run(cfg, tr, acts) && k < |acts| && acts[k] == Take(q)
    requires q in tr[k + 1].queries && tr[k + 1].queries[q].Exchanging?
    ensures |tr[k].pool.ups| > 0
    ensures var ce := tr[k + 1].queries[q].ce; var conns := Idle(tr[k].pool.cache, ce.addr);
            && |conns| > 0 && conns[0] == ce
            && Choose(tr[k].pool, tr[k + 1].clock).Address() == ce.addr
  {
    assert StepAt(cfg, tr, acts, k);
    IdleExclusively(cfg, tr, acts, k, Choose(tr[k].pool, tr[k + 1].clock).Address(), 0);
  }

  /** A query is handed a flagged connection exactly when the last return of that connection
      was itself a failure of its upstream. */
  lemma FlaggedIff(cfg: Config, tr: seq<State>, acts: seq<Action>, k: nat, q: nat)
    requires Run(cfg, tr, acts) && k < |acts| && acts[k] == Take(q)
    requires q in tr[k + 1].queries && tr[k + 1].queries[q].Exchanging?
    ensures var ce := tr[k + 1].queries[q].ce; var r := ReturnedAt(tr, acts, k, ce.id);
            && r.Some? && acts[r.value].Return? && ReportOf(tr[r.value], acts[r.value]) == Some(ce)
            && (ce.err <==> Failing(tr[r.value], acts[r.value]) == Some(ce.addr))
  {
    HitIsHead(cfg, tr, acts, k, q);
    var ce := tr[k + 1].queries[q].ce;
    IdleAsReturned(cfg, tr, acts, k, ce.addr);
    assert Idle(tr[k].pool.cache, ce.addr)[0] == ce;
  }

  lemma ChosenAwake(cfg: Config, tr: seq<State>, acts: seq<Action>, k: nat, q: nat)
    requires Run(cfg, tr, acts) && k < |acts| && acts[k] == Take(q)
    ensures |tr[k].pool.ups| > 0 && Choose(tr[k].pool, tr[k + 1].clock) in tr[k].pool.ups
    ensures Choose(tr[k].pool, tr[k + 1].clock).Cooling(tr[k + 1].clock) ==> !AnyOpen(tr[k].pool, tr[k + 1].clock)
  {
    RunSelection(cfg, tr, acts, k, q);
    ChosenIsListed(tr[k].pool, tr[k + 1].clock);
  }

  lemma FlaggedFails(cfg: Config, tr: seq<State>, acts: seq<Action>, r: nat, k: nat, q: nat)
    requires Run(cfg, tr, acts) && k < |acts| && acts[k] == Take(q)
    requires q in tr[k + 1].queries && tr[k + 1].queries[q].Exchanging? && tr[k + 1].queries[q].ce.err
    requires ReturnedAt(tr, acts, k, tr[k + 1].queries[q].ce.id) == Some(r)
    ensures r < k && Failing(tr[r], acts[r]).Some?
  {
    FlaggedIff(cfg, tr, acts, k, q);
  }

  /** An upstream that failed is chosen only after its cooldown, or as a last resort. */
  lemma ChosenAfterFailure(cfg: Config, tr: seq<State>, acts: seq<Action>, r: nat, k: nat, q: nat)
    requires Run(cfg, tr, acts) && r < k < |acts| && acts[k] == Take(q) && |tr[k].pool.ups| > 0
    requires Failing(tr[r], acts[r]).Some?
    requires Cooled(tr[r], acts[r]) == Some(Choose(tr[k].pool, tr[k + 1].clock).ref)
    ensures tr[r + 1].clock + cfg.CooldownPeriod() <= tr[k + 1].clock || !AnyOpen(tr[k].pool, tr[k + 1].clock)
  {
    hide AddressOf, StepAt;
    ChosenAwake(cfg, tr, acts, k, q);
    if tr[k + 1].clock < tr[r + 1].clock + cfg.CooldownPeriod() {
      RunClock(cfg, tr, acts, r + 1, k + 1);
      CoolsAfterFailure(cfg, tr, acts, r, k, Choose(tr[k].pool, tr[k + 1].clock), tr[k + 1].clock);
    }
  }

  /** It happens only after the cooldown that its return started, or as a last resort, when no
      awake upstream has a key in the map. */
  lemma FlaggedAfterCooldown(cfg: Config, tr: seq<State>, acts: seq<Action>, r: nat, k: nat, q: nat)
    requires Run(cfg, tr, acts) && k < |acts| && acts[k] == Take(q)
    requires q in tr[k + 1].queries && tr[k + 1].queries[q].Exchanging? && tr[k + 1].queries[q].ce.err
    requires ReturnedAt(tr, acts, k, tr[k + 1].queries[q].ce.id) == Some(r)
    ensures |tr[k].pool.ups| > 0
    ensures Cooled(tr[r], acts[r]) == Some(Choose(tr[k].pool, tr[k + 1].clock).ref) ==>
              tr[r + 1].clock + cfg.CooldownPeriod() <= tr[k + 1].clock || !AnyOpen(tr[k].pool, tr[k + 1].clock)
  {
    FlaggedFails(cfg, tr, acts, r, k, q);
    ChosenAwake(cfg, tr, acts, k, q);
    if Cooled(tr[r], acts[r]) == Some(Choose(tr[k].pool, tr[k + 1].clock).ref) {
      ChosenAfterFailure(cfg, tr, acts, r, k, q);
    }
  }

  // --------------------------------------------------------------- an instance

  /** The defaults, and two queries at a time. */
  const CFG := Config(0, 0, 0, 2)

  const SLOW: nat := 501 * MILLISECOND

  /** A connection that took 501 ms to dial, after so many exchanges. */
  function Slow(u: Upstream, exchanges: nat): Conn {
    Conn(0, u.Address(), SLOW, exchanges, true)
  }

  /** Its upstream after it was returned. */
  function Punished(u: Upstream): Upstream {
    u.(weight := 250.5, wakeup := 500 * MILLISECOND)
  }

  lemma SlowReport(u: Upstream)
    ensures Slow(u, 2).Weight() == 250.5 && Report(CFG, u, Slow(u, 2), 0) == Punished(u)
    ensures NewConn(CFG, 0, u.Address(), SLOW) == Slow(u, 1) && Slow(u, 1).AddExchange(CFG, 0) == Slow(u, 2)
  {
    assert SLOW / MILLISECOND == 501;
    assert 501 as real / 2 as real == 250.5;
  }

  lemma SlowReturn(u: Upstream)
    ensures AddStep(CFG, Pool([u], map[]), Slow(u, 2), 0, Pool([Punished(u)], map[u.Address() := [Slow(u, 2)]]))
    ensures Spawned(Pool([u], map[]), Slow(u, 2)) == []
  {
    SlowReport(u);
    assert FirstAt([u], u.Address()) == 0 && [u][0 := Punished(u)] == [Punished(u)];
    assert SortOf([Punished(u)], [Punished(u)]);
    assert [] + [Slow(u, 2)] == [Slow(u, 2)];
  }

  lemma SlowTaken(u: Upstream)
    ensures var p, now := Pool([Punished(u)], map[u.Address() := [Slow(u, 2)]]), 500 * MILLISECOND;
            && Choose(p, now) == Punished(u) && !Punished(u).Cooling(now)
            && Get(p, now) == (Hit(Slow(u, 2)), p.(cache := map[u.Address() := []]))
  {
    var p, now := Pool([Punished(u)], map[u.Address() := [Slow(u, 2)]]), 500 * MILLISECOND;
    assert Ready(p, now, p.ups[0]);
    assert p.cache[u.Address() := []] == map[u.Address() := []];
  }

  function Stage(t: Time, u: Upstream, cache: map<string, seq<Conn>>, queries: map<nat, Phase>, sem: nat,
                 dialed: seq<string>): State {
    State(t, Pool([u], cache), [], multiset{}, queries, sem, dialed)
  }

  /** Before the return, and from it on. */
  function Before(u: Upstream, ph: Phase, dialed: seq<string>): State {
    Stage(0, u, map[], map[0 := ph], 1, dialed)
  }

  function After(u: Upstream, queries: map<nat, Phase>, sem: nat): State {
    Stage(0, Punished(u), map[u.Address() := [Slow(u, 2)]], queries[0 := Done(Answered)], sem, [u.Address()])
  }

  lemma FirstHalf(u: Upstream)
    ensures var a := u.Address();
            && Next(CFG, Stage(0, u, map[], map[], 2, []), Acquire(0), Before(u, Admitted, []))
            && Next(CFG, Before(u, Admitted, []), Lookup(0, false), Before(u, NeedConn(0), []))
            && Next(CFG, Before(u, NeedConn(0), []), Take(0), Before(u, Dialing(0, a), []))
            && Next(CFG, Before(u, Dialing(0, a), []), DialOk(0, SLOW), Before(u, Exchanging(0, Slow(u, 1)), [a]))
            && Next(CFG, Before(u, Exchanging(0, Slow(u, 1)), [a]), Exchange(0, 0, true), Before(u, Adding(0, Slow(u, 2)), [a]))
  {
    ChooseOnEmpty(Pool([u], map[]), 0);
    SlowReport(u);
    assert [] + [u.Address()] == [u.Address()];
  }

  lemma SecondHalf(u: Upstream)
    ensures var s := After(u, map[1 := NeedConn(0)], 0);
            && Next(CFG, Before(u, Adding(0, Slow(u, 2)), [u.Address()]), Return(0), After(u, map[], 1))
            && Next(CFG, After(u, map[], 1), Acquire(1), After(u, map[1 := Admitted], 0))
            && Next(CFG, After(u, map[1 := Admitted], 0), Lookup(1, false), s)
            && Next(CFG, s, Take(1), s.(clock := 500 * MILLISECOND,
                                        pool := s.pool.(cache := map[u.Address() := []]),
                                        queries := s.queries[1 := Exchanging(0, Slow(u, 2))]))
  {
    SlowReturn(u);
    SlowTaken(u);
  }

  /** The states and the steps of the instance. */
  function Scene(u: Upstream, i: nat): State {
    var a, s := u.Address(), After(u, map[1 := NeedConn(0)], 0);
    if i == 0 then Stage(0, u, map[], map[], 2, [])
    else if i == 1 then Before(u, Admitted, [])
    else if i == 2 then Before(u, NeedConn(0), [])
    else if i == 3 then Before(u, Dialing(0, a), [])
    else if i == 4 then Before(u, Exchanging(0, Slow(u, 1)), [a])
    else if i == 5 then Before(u, Adding(0, Slow(u, 2)), [a])
    else if i == 6 then After(u, map[], 1)
    else if i == 7 then After(u, map[1 := Admitted], 0)
    else if i == 8 then s
    else s.(clock := 500 * MILLISECOND, pool := s.pool.(cache := map[a := []]),
            queries := s.queries[1 := Exchanging(0, Slow(u, 2))])
  }

  const SCRIPT: seq<Action> := [Acquire(0), Lookup(0, false), Take(0), DialOk(0, SLOW), Exchange(0, 0, true), Return(0),
                                Acquire(1), Lookup(1, false), Take(1)]

  lemma SceneStep(u: Upstream, i: nat)
    requires i < 9
    ensures |SCRIPT| == 9 && Next(CFG, Scene(u, i), SCRIPT[i], Scene(u, i + 1))
  {
    if i < 5 {
      FirstHalf(u);
    } else {
      SecondHalf(u);
    }
  }

  /** A query dials in 501 ms, is answered and returns its connection. Half a second later the
      next query is handed that flagged connection, from an upstream that is awake. */
  lemma FlaggedHandedOut(u: Upstream) returns (tr: seq<State>)
    requires u.name != "" && u.weight == 0.0 && u.wakeup == 0
    ensures |tr| == 10 && Run(CFG, tr, SCRIPT)
    ensures 1 in tr[9].queries && tr[9].queries[1].Exchanging? && tr[9].queries[1].ce.err
    ensures tr[8].pool.ups == [Punished(u)] && !Punished(u).Cooling(tr[9].clock)
  {
    tr := seq(10, i requires 0 <= i < 10 => Scene(u, i));
    forall i | 0 <= i < |SCRIPT| ensures StepAt(CFG, tr, SCRIPT, i) {
      SceneStep(u, i);
    }
    assert tr[0] == Scene(u, 0) && tr[8] == Scene(u, 8) && tr[9] == Scene(u, 9);
  }
}
