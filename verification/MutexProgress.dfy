/** Every query gets somewhere: it is admitted as soon as there is a slot, it is never stuck, the
    answers of the network decide where it goes, and it is done after a bounded number of steps. */
module MutexProgress {
  import opened PoolSpec
  import opened Counting
  import opened MutexSystem
  import opened MutexInvariant
  import opened MutexRuns
  import MutexCascade
  import MutexScheduler

  /** A query that arrives is admitted unless as many queries as the limit allows are active. */
  lemma WaitsIff(cfg: Config, s: State, q: nat, at: Time)
    requires Inv(cfg, s) && q !in s.queries
    ensures MutexScheduler.StepsOf(s, MutexScheduler.Arrives(q, at))
         == if Count(s.queries, IsActive()) < cfg.concurrency then [Acquire(q)] else []
  {
  }

  /** Sort and report of a connection always lead somewhere. */
  lemma ReportedExists(cfg: Config, ups: seq<Upstream>, ce: Conn, now: Time) returns (ups': seq<Upstream>)
    ensures Reported(cfg, ups, ce, now, ups')
  {
    hide AddressOf;
    ups' := ups;
    var i := FirstAt(ups, ce.addr);
    if i < |ups| {
      ups' := MutexCascade.SortExists(ups[i := Report(cfg, ups[i], ce, now)]);
    }
  }

  lemma CloseExists(cfg: Config, p: Pool, ce: Conn, now: Time) returns (p': Pool)
    ensures CloseStep(cfg, p, ce, now, p')
  {
    var ups' := ReportedExists(cfg, p.ups, ce, now);
    p' := Pool(ups', ReportedCache(p, ce));
  }

  lemma AddExists(cfg: Config, p: Pool, ce: Conn, now: Time) returns (p': Pool)
    ensures AddStep(cfg, p, ce, now, p')
  {
    var ups' := ReportedExists(cfg, p.ups, ce, now);
    var cache := ReportedCache(p, ce);
    p' := Pool(ups', cache[ce.addr := Idle(cache, ce.addr) + [ce]]);
  }

  /** Where the network and the caches send a query. */
  ghost predicate Heeds(cfg: Config, ph: Phase, n: MutexScheduler.Net, ph': Phase) {
    match ph
    case Admitted => ph' == if n.hit then Done(Cached) else NeedConn(0)
    case NeedConn(i) => (ph'.Exchanging? || ph'.Dialing?) && ph'.i == i
    case Dialing(i, addr) =>
      (match n.dial
       case Some(rtt) => ph'.Exchanging? && ph'.i == i && ph'.ce.addr == addr && ph'.ce.totalRtt == rtt && ph'.ce.exchanges == 1
       case None => if i < cfg.retries then ph' == NeedConn(i + 1) else ph' == Done(Failed))
    case Exchanging(i, ce) =>
      && (if n.answered then ph'.Adding? else ph'.Closing? && ph'.ce.err)
      && ph'.i == i && ph'.ce.id == ce.id && ph'.ce.totalRtt == ce.totalRtt + n.rtt
    case Closing(i, _) => if i < cfg.retries then ph' == NeedConn(i + 1) else ph' == Done(Failed)
    case Adding(_, _) => ph' == Done(Answered)
    case Done(out) => ph' == Released(out)
    case Released(_) => false
  }

  lemma StepHeeds(cfg: Config, s: State, q: nat, n: MutexScheduler.Net, s': State)
    requires q in s.queries && !s.queries[q].Released?
    requires Next(cfg, s, MutexScheduler.StepOf(s.queries[q], q, n)[0], s')
    ensures q in s'.queries && Heeds(cfg, s.queries[q], n, s'.queries[q])
    ensures forall r | r in s.queries && r != q :: r in s'.queries && s'.queries[r] == s.queries[r]
  {
    hide AddressOf, AddStep, CloseStep, DialFailure;
  }

  lemma StepExists(cfg: Config, s: State, q: nat, n: MutexScheduler.Net) returns (s': State)
    requires q in s.queries && !s.queries[q].Released? && |s.pool.ups| > 0 && s.clock <= n.at
    ensures Next(cfg, s, MutexScheduler.StepOf(s.queries[q], q, n)[0], s')
  {
    hide AddressOf, AddStep, CloseStep, DialFailure, DialSpawned, Spawned, Get;
    var now := n.at;
    match s.queries[q]
    case Admitted => s' := s.(clock := now, queries := s.queries[q := if n.hit then Done(Cached) else NeedConn(0)]);
    case NeedConn(i) =>
      var (out, p) := Get(s.pool, now);
      s' := s.(clock := now, pool := p, queries := s.queries[q := Taken(i, out)]);
    case Dialing(i, addr) =>
      if n.dial.Some? {
        s' := s.(clock := now, dialed := s.dialed + [addr],
                 queries := s.queries[q := Exchanging(i, NewConn(cfg, |s.dialed|, addr, n.dial.value))]);
      } else {
        s' := s.(clock := now, pool := DialFailure(cfg, s.pool, addr, now),
                 pending := s.pending + DialSpawned(s.pool, addr), queries := s.queries[q := Retry(cfg, i)]);
      }
    case Exchanging(_, _) =>
      s' := s.(clock := now, queries := s.queries[q := Exchanged(cfg, s.queries[q], n.rtt, n.answered)]);
    case Closing(i, ce) =>
      var p := CloseExists(cfg, s.pool, ce, now);
      s' := s.(clock := now, pool := p, pending := s.pending + Spawned(s.pool, ce),
               closed := s.closed + multiset{ce.id}, queries := s.queries[q := Retry(cfg, i)]);
    case Adding(_, ce) =>
      var p := AddExists(cfg, s.pool, ce, now);
      s' := s.(clock := now, pool := p, pending := s.pending + Spawned(s.pool, ce), queries := s.queries[q := Done(Answered)]);
    case Done(out) => s' := s.(clock := now, sem := s.sem + 1, queries := s.queries[q := Released(out)]);
  }

  /** Whatever state the system is in and whatever the network does, a query that has not finished
      has exactly one step to take. It can take it now, it goes where the outcome sends it, and no
      other query moves. */
  lemma NeverStuck(cfg: Config, tr: seq<State>, acts: seq<Action>, k: nat, q: nat, n: MutexScheduler.Net)
    returns (s': State)
    requires Run(cfg, tr, acts) && k < |tr| && q in tr[k].queries && !tr[k].queries[q].Released? && tr[k].clock <= n.at
    ensures |MutexScheduler.StepOf(tr[k].queries[q], q, n)| == 1
    ensures Next(cfg, tr[k], MutexScheduler.StepOf(tr[k].queries[q], q, n)[0], s')
    ensures q in s'.queries && Heeds(cfg, tr[k].queries[q], n, s'.queries[q])
    ensures forall r | r in tr[k].queries && r != q :: r in s'.queries && s'.queries[r] == tr[k].queries[r]
  {
    hide Next, StepAt, Heeds;
    RunInv(cfg, tr, acts, k);
    s' := StepExists(cfg, tr[k], q, n);
    StepHeeds(cfg, tr[k], q, n, s');
  }

  /** How many steps a query took. */
  function Own(acts: seq<Action>, q: nat): nat {
    if acts == [] then 0
    else
      var last := acts[|acts| - 1];
      Own(acts[..|acts| - 1], q) + if !last.AsyncClose? && last.q == q then 1 else 0
  }

  /** How many it can still take. */
  function Left(cfg: Config, ph: Phase): int {
    match ph
    case Admitted => 4 * cfg.retries + 6
    case NeedConn(i) => 4 * (cfg.retries - i) + 5
    case Dialing(i, _) => 4 * (cfg.retries - i) + 4
    case Exchanging(i, _) => 4 * (cfg.retries - i) + 3
    case Closing(i, _) => 4 * (cfg.retries - i) + 2
    case Adding(_, _) => 2
    case Done(_) => 1
    case Released(_) => 0
  }

  lemma LeftStep(cfg: Config, s: State, act: Action, s': State, q: nat)
    requires Attempts(cfg, s) && Next(cfg, s, act, s') && q in s'.queries
    ensures if act.AsyncClose? || act.q != q then q in s.queries && s'.queries[q] == s.queries[q]
            else if q in s.queries then Left(cfg, s'.queries[q]) < Left(cfg, s.queries[q])
            else s'.queries[q] == Admitted
  {
    hide AddressOf, AddStep, CloseStep, DialFailure, Choose;
  }

  lemma StaysKnown(cfg: Config, s: State, act: Action, s': State, q: nat)
    requires Next(cfg, s, act, s') && q !in s'.queries
    ensures q !in s.queries && (act.AsyncClose? || act.q != q)
  {
    hide AddressOf, AddStep, CloseStep, DialFailure, Choose;
  }

  lemma {:induction false} StepsCounted(cfg: Config, tr: seq<State>, acts: seq<Action>, k: nat, q: nat)
    requires Run(cfg, tr, acts) && k < |tr|
    ensures if q in tr[k].queries then Own(acts[..k], q) + Left(cfg, tr[k].queries[q]) <= 4 * cfg.retries + 7
            else Own(acts[..k], q) == 0
  {
    hide Next, Left;
    if k > 0 {
      assert acts[..k][..k - 1] == acts[..k - 1];
      StepsCounted(cfg, tr, acts, k - 1, q);
      RunInv(cfg, tr, acts, k - 1);
      assert StepAt(cfg, tr, acts, k - 1);
      if q in tr[k].queries {
        LeftStep(cfg, tr[k - 1], acts[k - 1], tr[k], q);
        AdmittedLeft(cfg);
      } else {
        StaysKnown(cfg, tr[k - 1], acts[k - 1], tr[k], q);
      }
    }
  }

  lemma AdmittedLeft(cfg: Config)
    ensures Left(cfg, Admitted) == 4 * cfg.retries + 6
  {
  }

  /** No query takes more than 4 * retries + 7 steps, however it is interleaved with others: slot,
      caches, at most four for each attempt, and the slot again. With `NeverStuck`, every query that
      keeps being scheduled finishes. */
  lemma StepsBounded(cfg: Config, tr: seq<State>, acts: seq<Action>, k: nat, q: nat)
    requires Run(cfg, tr, acts) && k < |tr|
    ensures Own(acts[..k], q) <= 4 * cfg.retries + 7
    ensures Own(acts[..k], q) == 4 * cfg.retries + 7 ==> q in tr[k].queries && tr[k].queries[q].Released?
  {
    StepsCounted(cfg, tr, acts, k, q);
    RunInv(cfg, tr, acts, k);
  }
}
