/** The cascade of asynchronous closes that a purge starts, and the accounts of one query. */
module MutexCascade {
  import opened PoolSpec
  import opened Counting
  import opened MutexSystem
  import opened MutexInvariant
  import opened MutexRuns

  // ---------------------------------------------------------------- cascade

  /** Connections that are idle or await an asynchronous close. */
  ghost function Unclosed(s: State): nat {
    Total(s.pool.cache) + |s.pending|
  }

  ghost predicate OnlyAsyncCloses(acts: seq<Action>) {
    forall k | 0 <= k < |acts| :: acts[k].AsyncClose?
  }

  lemma PurgeTotal(cache: map<string, seq<Conn>>, addr: string)
    ensures Total(Purge(cache, addr)) + |Idle(cache, addr)| == Total(cache)
  {
    if addr in cache {
      TotalUpdate(cache, addr, []);
    }
  }

  /** An asynchronous close takes one connection away. It may cool and purge again, which
      moves idle connections to the goroutines, so the weighted sum falls all the same. */
  lemma AsyncCloseDecreases(cfg: Config, s: State, k: nat, s': State)
    requires AsyncCloseStep(cfg, s, k, s')
    ensures Unclosed(s') == Unclosed(s) - 1
    ensures 2 * Total(s'.pool.cache) + |s'.pending| < 2 * Total(s.pool.cache) + |s.pending|
  {
    PurgeTotal(s.pool.cache, s.pending[k].addr);
  }

  lemma AsyncCloseProgress(cfg: Config, s: State, k: nat, s': State, ce: Conn)
    requires AsyncCloseStep(cfg, s, k, s')
    requires ce in s.pending || ce.id in s.closed
    ensures ce in s'.pending || ce.id in s'.closed
  {
    hide AddressOf;
    if ce.id !in s'.closed {
      var i :| 0 <= i < |s.pending| && s.pending[i] == ce;
      assert i != k;
      var rest := s.pending[..k] + s.pending[k + 1..];
      assert rest[if i < k then i else i - 1] == ce;
    }
  }

  lemma {:induction false} CascadeAccount(cfg: Config, tr: seq<State>, acts: seq<Action>, k: nat)
    requires Path(cfg, tr, acts) && OnlyAsyncCloses(acts) && k < |tr|
    ensures Unclosed(tr[k]) + k == Unclosed(tr[0])
  {
    hide AsyncCloseStep;
    if k > 0 {
      CascadeAccount(cfg, tr, acts, k - 1);
      assert StepAt(cfg, tr, acts, k - 1);
      AsyncCloseDecreases(cfg, tr[k - 1], acts[k - 1].k, tr[k]);
    }
  }

  lemma {:induction false} CascadeKeeps(cfg: Config, tr: seq<State>, acts: seq<Action>, j: nat, k: nat, ce: Conn)
    requires Path(cfg, tr, acts) && OnlyAsyncCloses(acts) && j <= k < |tr| && ce in tr[j].pending
    ensures ce in tr[k].pending || ce.id in tr[k].closed
    decreases k
  {
    hide AsyncCloseStep;
    if j < k {
      CascadeKeeps(cfg, tr, acts, j, k - 1, ce);
      assert StepAt(cfg, tr, acts, k - 1);
      AsyncCloseProgress(cfg, tr[k - 1], acts[k - 1].k, tr[k], ce);
    }
  }

  /** While no query moves, at most as many asynchronous closes can happen as connections
      were idle or awaiting one. When none is left to run, every connection that ever awaited
      one on the way is closed. */
  lemma CascadeTerminates(cfg: Config, tr: seq<State>, acts: seq<Action>)
    requires Path(cfg, tr, acts) && OnlyAsyncCloses(acts)
    ensures |acts| <= Unclosed(tr[0])
    ensures |acts| == Unclosed(tr[0]) ==>
              tr[|acts|].pending == [] && forall a :: Idle(tr[|acts|].pool.cache, a) == []
    ensures tr[|acts|].pending == [] ==>
              forall j, ce | 0 <= j < |tr| && ce in tr[j].pending :: ce.id in tr[|acts|].closed
  {
    CascadeAccount(cfg, tr, acts, |acts|);
    if |acts| == Unclosed(tr[0]) {
      TotalZero(tr[|acts|].pool.cache);
    }
    if tr[|acts|].pending == [] {
      forall j, ce | 0 <= j < |tr| && ce in tr[j].pending ensures ce.id in tr[|acts|].closed {
        CascadeKeeps(cfg, tr, acts, j, |acts|, ce);
      }
    }
  }

  function Insert(u: Upstream, ups: seq<Upstream>): seq<Upstream> {
    if ups == [] || u.weight <= ups[0].weight then [u] + ups else [ups[0]] + Insert(u, ups[1..])
  }

  lemma PrependSorted(u: Upstream, ups: seq<Upstream>)
    requires Sorted(ups) && forall v | v in ups :: u.weight <= v.weight
    ensures Sorted([u] + ups)
  {
  }

  lemma {:induction false} InsertCount(u: Upstream, ups: seq<Upstream>)
    ensures multiset(Insert(u, ups)) == multiset(ups) + multiset{u}
  {
    if ups != [] && u.weight > ups[0].weight {
      InsertCount(u, ups[1..]);
      assert ups == [ups[0]] + ups[1..];
    }
  }

  lemma {:induction false} InsertSorted(u: Upstream, ups: seq<Upstream>)
    requires Sorted(ups)
    ensures Sorted(Insert(u, ups))
    ensures forall v | v in Insert(u, ups) :: v == u || v in ups
  {
    if ups == [] || u.weight <= ups[0].weight {
      PrependSorted(u, ups);
    } else {
      InsertSorted(u, ups[1..]);
      PrependSorted(ups[0], Insert(u, ups[1..]));
    }
  }

  /** sort.Slice can always do its job. */
  lemma {:induction false} SortExists(ups: seq<Upstream>) returns (ups': seq<Upstream>)
    ensures SortOf(ups, ups')
  {
    if ups == [] {
      ups' := [];
    } else {
      var rest := SortExists(ups[1..]);
      ups' := Insert(ups[0], rest);
      InsertCount(ups[0], rest);
      InsertSorted(ups[0], rest);
      assert ups == [ups[0]] + ups[1..];
    }
  }

  /** A goroutine waiting to close its connection is never stuck, whatever the state. */
  lemma AsyncCloseEnabled(cfg: Config, s: State, k: nat) returns (s': State)
    requires k < |s.pending|
    ensures Next(cfg, s, AsyncClose(k), s')
  {
    var ce := s.pending[k];
    var i := FirstAt(s.pool.ups, ce.addr);
    var ups' := s.pool.ups;
    if i < |s.pool.ups| {
      ups' := SortExists(s.pool.ups[i := Report(cfg, s.pool.ups[i], ce, s.clock)]);
    }
    s' := s.(pool := Pool(ups', ReportedCache(s.pool, ce)),
             pending := s.pending[..k] + s.pending[k + 1..] + Spawned(s.pool, ce),
             closed := s.closed + multiset{ce.id});
  }

  // ------------------------------------------------------- accounts of a query

  datatype Account = Account(takes: nat, failedDials: nat, failedExchanges: nat, answers: nat,
                             closes: nat, returned: nat)

  function Book(a: Account, act: Action, q: nat): Account {
    match act
    case Take(r) => if r == q then a.(takes := a.takes + 1) else a
    case DialFail(r) => if r == q then a.(failedDials := a.failedDials + 1) else a
    case Exchange(r, _, ok) =>
      if r != q then a
      else if ok then a.(answers := a.answers + 1)
      else a.(failedExchanges := a.failedExchanges + 1)
    case Close(r) => if r == q then a.(closes := a.closes + 1) else a
    case Return(r) => if r == q then a.(returned := a.returned + 1) else a
    case _ => a
  }

  /** What query q did in a sequence of actions. */
  function Books(acts: seq<Action>, q: nat): Account {
    if acts == [] then Account(0, 0, 0, 0, 0, 0)
    else Book(Books(acts[..|acts| - 1], q), acts[|acts| - 1], q)
  }

  /** What the account of a query says about where it stands. */
  predicate Balanced(cfg: Config, a: Account, ph: Phase) {
    && a.closes + (if ph.Closing? then 1 else 0) == a.failedExchanges
    && match ph
       case Admitted => a.takes == a.failedDials + a.failedExchanges == a.answers == a.returned == 0
       case NeedConn(i) =>
         a.takes == a.failedDials + a.failedExchanges == i <= cfg.retries && a.answers == a.returned == 0
       case Closing(i, _) =>
         a.takes == a.failedDials + a.failedExchanges == i + 1 <= cfg.retries + 1 && a.answers == a.returned == 0
       case Dialing(i, _) => OnAttempt(cfg, a, i) && a.answers == a.returned == 0
       case Exchanging(i, _) => OnAttempt(cfg, a, i) && a.answers == a.returned == 0
       case Adding(i, _) => OnAttempt(cfg, a, i) && a.answers == 1 && a.returned == 0
       case Done(out) => Settled(cfg, a, out)
       case Released(out) => Settled(cfg, a, out)
  }

  predicate OnAttempt(cfg: Config, a: Account, i: nat) {
    a.takes == i + 1 <= cfg.retries + 1 && a.failedDials + a.failedExchanges == i
  }

  /** A query that went upstream succeeded exactly when one attempt succeeded, and then it
      returned exactly one connection; it failed exactly when all attempts failed. */
  predicate Settled(cfg: Config, a: Account, out: Outcome) {
    match out
    case Cached => a.takes == a.failedDials + a.failedExchanges == a.answers == a.returned == 0
    case Answered =>
      && a.takes <= cfg.retries + 1 && a.answers == a.returned == 1
      && a.failedDials + a.failedExchanges == a.takes - 1
    case Failed =>
      a.takes == a.failedDials + a.failedExchanges == cfg.retries + 1 && a.answers == a.returned == 0
  }

  lemma BookOther(a: Account, act: Action, q: nat)
    requires act.AsyncClose? || act.q != q
    ensures Book(a, act, q) == a
  {
  }

  lemma BalancedStep(cfg: Config, s: State, act: Action, s': State, q: nat, a: Account)
    requires Next(cfg, s, act, s') && q in s'.queries
    requires if q in s.queries then Balanced(cfg, a, s.queries[q]) else a == Account(0, 0, 0, 0, 0, 0)
    ensures Balanced(cfg, Book(a, act, q), s'.queries[q])
  {
    hide AddressOf, Choose, AddStep, CloseStep, DialFailure;
    if act.AsyncClose? || act.q != q {
      BookOther(a, act, q);
    }
  }

  lemma {:induction false} UnseenQuery(cfg: Config, tr: seq<State>, acts: seq<Action>, k: nat, q: nat)
    requires Run(cfg, tr, acts) && k < |tr| && q !in tr[k].queries
    ensures Books(acts[..k], q) == Account(0, 0, 0, 0, 0, 0)
  {
    if k > 0 {
      assert StepAt(cfg, tr, acts, k - 1);
      assert acts[..k][..k - 1] == acts[..k - 1];
      UnseenQuery(cfg, tr, acts, k - 1, q);
    }
  }

  /** In every interleaving, the account of every query balances. A finished query made at most
      retries + 1 attempts; it was answered exactly when some exchange succeeded, and then it
      returned exactly one connection; it closed one connection for each failed exchange. */
  lemma {:induction false} QueryAccounts(cfg: Config, tr: seq<State>, acts: seq<Action>, k: nat, q: nat)
    requires Run(cfg, tr, acts) && k < |tr| && q in tr[k].queries
    ensures Balanced(cfg, Books(acts[..k], q), tr[k].queries[q])
  {
    if k > 0 {
      assert acts[..k][..k - 1] == acts[..k - 1];
      if q in tr[k - 1].queries {
        QueryAccounts(cfg, tr, acts, k - 1, q);
      } else {
        UnseenQuery(cfg, tr, acts, k - 1, q);
      }
      assert StepAt(cfg, tr, acts, k - 1);
      BalancedStep(cfg, tr[k - 1], acts[k - 1], tr[k], q, Books(acts[..k - 1], q));
    }
  }

  /** The close after a failed exchange: the connection is flagged, its upstream cools, its
      idle list is empty at that step, and its socket is closed. */
  lemma CloseEffect(cfg: Config, tr: seq<State>, acts: seq<Action>, k: nat, q: nat)
    requires Run(cfg, tr, acts) && k < |acts| && acts[k] == Close(q)
    ensures q in tr[k].queries && tr[k].queries[q].Closing?
    ensures var ce := tr[k].queries[q].ce;
            && ce.err
            && Failing(tr[k], acts[k]) == Some(ce.addr)
            && Idle(tr[k + 1].pool.cache, ce.addr) == []
            && tr[k + 1].closed == tr[k].closed + multiset{ce.id}
            && exists v :: v in tr[k + 1].pool.ups && v.Address() == ce.addr
                 && Cooled(tr[k], acts[k]) == Some(v.ref)
                 && v.wakeup == tr[k + 1].clock + cfg.CooldownPeriod()
  {
    RunInv(cfg, tr, acts, k);
    assert StepAt(cfg, tr, acts, k);
    AddressesKnown(cfg, tr[k], acts[k]);
    var u := FailureCools(cfg, tr, acts, k);
  }
}
