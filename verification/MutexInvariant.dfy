/** Every step of the mutex server keeps the invariant of `MutexSystem`. */
module MutexInvariant {
  import opened PoolSpec
  import opened Counting
  import opened MutexSystem

  // ---------------------------------------------------------------- records

  lemma ReportedRecords(cfg: Config, ups: seq<Upstream>, ce: Conn, now: Time, ups': seq<Upstream>)
    requires Distinct(ups) && Sorted(ups) && Reported(cfg, ups, ce, now, ups')
    ensures Distinct(ups') && Sorted(ups') && |ups'| == |ups| && Addresses(ups') == Addresses(ups)
    ensures forall v | v in ups' ::
              v in ups || (Known(ups, ce.addr) && v == Report(cfg, ups[FirstAt(ups, ce.addr)], ce, now))
  {
    if Known(ups, ce.addr) {
      var u := ups[FirstAt(ups, ce.addr)];
      ReportedReplaces(cfg, ups, ce, now, ups');
      ReplacedMembers(ups, u, Report(cfg, u, ce, now), ups');
    }
  }

  lemma DialFailureRecords(cfg: Config, p: Pool, addr: string, now: Time)
    requires Distinct(p.ups) && Sorted(p.ups)
    ensures var ups' := DialFailure(cfg, p, addr, now).ups;
            && Distinct(ups') && Sorted(ups') && |ups'| == |p.ups| && Addresses(ups') == Addresses(p.ups)
            && forall v | v in ups' ::
                 v in p.ups || (Known(p.ups, addr) && v == Cool(cfg, p.ups[FirstAt(p.ups, addr)], now))
  {
    if Known(p.ups, addr) {
      var u := p.ups[FirstAt(p.ups, addr)];
      DialFailureReplaces(cfg, p, addr, now);
      CoolKeepsOrder(cfg, p.ups, FirstAt(p.ups, addr), now);
      ReplacedMembers(p.ups, u, Cool(cfg, u, now), DialFailure(cfg, p, addr, now).ups);
    }
  }

  lemma ReportedGood(cfg: Config, ups: seq<Upstream>, ce: Conn, clock: Time, now: Time, ups': seq<Upstream>)
    requires Records(cfg, ups, clock) && clock <= now && Reported(cfg, ups, ce, now, ups')
    ensures Records(cfg, ups', now) && Addresses(ups') == Addresses(ups)
  {
    ReportedRecords(cfg, ups, ce, now, ups');
  }

  lemma DialFailureGood(cfg: Config, p: Pool, addr: string, clock: Time, now: Time)
    requires Records(cfg, p.ups, clock) && clock <= now
    ensures var ups' := DialFailure(cfg, p, addr, now).ups;
            Records(cfg, ups', now) && Addresses(ups') == Addresses(p.ups)
  {
    DialFailureRecords(cfg, p, addr, now);
  }

  lemma RecordsStep(cfg: Config, s: State, act: Action, s': State)
    requires Records(cfg, s.pool.ups, s.clock) && Next(cfg, s, act, s')
    ensures Records(cfg, s'.pool.ups, s'.clock) && Addresses(s'.pool.ups) == Addresses(s.pool.ups)
  {
    match act
    case DialFail(q) => DialFailureGood(cfg, s.pool, s.queries[q].addr, s.clock, s'.clock);
    case Close(q) => ReportedGood(cfg, s.pool.ups, s.queries[q].ce, s.clock, s'.clock, s'.pool.ups);
    case Return(q) => ReportedGood(cfg, s.pool.ups, s.queries[q].ce, s.clock, s'.clock, s'.pool.ups);
    case AsyncClose(k) => ReportedGood(cfg, s.pool.ups, s.pending[k], s.clock, s'.clock, s'.pool.ups);
    case _ =>
  }

  // -------------------------------------------------------------- placement

  lemma ChosenIsListed(p: Pool, now: Time)
    requires |p.ups| > 0
    ensures Choose(p, now) in p.ups && Choose(p, now).Address() in Addresses(p.ups)
  {
  }

  lemma ReportedCachePlaced(cfg: Config, dialed: seq<string>, p: Pool, ce: Conn)
    requires CachePlaced(cfg, dialed, Addresses(p.ups), p.cache)
    ensures CachePlaced(cfg, dialed, Addresses(p.ups), ReportedCache(p, ce))
    ensures AllGenuine(cfg, dialed, Addresses(p.ups), Spawned(p, ce))
  {
  }

  lemma AppendPlaced(cfg: Config, dialed: seq<string>, addrs: set<string>, cache: map<string, seq<Conn>>, ce: Conn)
    requires CachePlaced(cfg, dialed, addrs, cache) && Genuine(cfg, dialed, addrs, ce)
    ensures CachePlaced(cfg, dialed, addrs, cache[ce.addr := Idle(cache, ce.addr) + [ce]])
  {
  }

  lemma TakePlaced(cfg: Config, s: State, now: Time, i: nat)
    requires |s.pool.ups| > 0 && CachePlaced(cfg, s.dialed, Addresses(s.pool.ups), s.pool.cache)
    ensures var (out, p) := Get(s.pool, now);
            && CachePlaced(cfg, s.dialed, Addresses(s.pool.ups), p.cache)
            && PhasePlaced(cfg, s.dialed, Addresses(s.pool.ups), Taken(i, out))
  {
    ChosenIsListed(s.pool, now);
  }

  lemma DialPlaced(cfg: Config, s: State, addr: string)
    requires WellPlaced(cfg, s)
    ensures WellPlaced(cfg, s.(dialed := s.dialed + [addr]))
  {
  }

  lemma PendingPlaced(cfg: Config, dialed: seq<string>, addrs: set<string>, cs: seq<Conn>, ds: seq<Conn>)
    requires AllGenuine(cfg, dialed, addrs, cs) && AllGenuine(cfg, dialed, addrs, ds)
    ensures AllGenuine(cfg, dialed, addrs, cs + ds)
    ensures forall k | 0 <= k < |cs| :: AllGenuine(cfg, dialed, addrs, cs[..k] + cs[k + 1..])
  {
  }

  lemma DialOkPlaced(cfg: Config, s: State, q: nat, rtt: nat, s': State)
    requires WellPlaced(cfg, s) && DialOkStep(cfg, s, q, rtt, s')
    ensures WellPlaced(cfg, s')
  {
    DialPlaced(cfg, s, s.queries[q].addr);
    AddExchangeHonest(cfg, Conn(|s.dialed|, s.queries[q].addr, 0, 0, false), rtt);
  }

  lemma DialFailPlaced(cfg: Config, s: State, q: nat, s': State)
    requires WellPlaced(cfg, s) && DialFailStep(cfg, s, q, s')
    requires Addresses(s'.pool.ups) == Addresses(s.pool.ups)
    ensures WellPlaced(cfg, s')
  {
    hide AddressOf;
    var addr := s.queries[q].addr;
    PendingPlaced(cfg, s.dialed, Addresses(s.pool.ups), s.pending, DialSpawned(s.pool, addr));
  }

  lemma ReturnPlaced(cfg: Config, s: State, q: nat, s': State)
    requires WellPlaced(cfg, s) && ReturnStep(cfg, s, q, s')
    requires Addresses(s'.pool.ups) == Addresses(s.pool.ups)
    ensures WellPlaced(cfg, s')
  {
    hide AddressOf;
    var ce := s.queries[q].ce;
    ReportedCachePlaced(cfg, s.dialed, s.pool, ce);
    AppendPlaced(cfg, s.dialed, Addresses(s.pool.ups), ReportedCache(s.pool, ce), ce);
    PendingPlaced(cfg, s.dialed, Addresses(s.pool.ups), s.pending, Spawned(s.pool, ce));
  }

  lemma ClosePlaced(cfg: Config, s: State, q: nat, s': State)
    requires WellPlaced(cfg, s) && QueryCloseStep(cfg, s, q, s')
    requires Addresses(s'.pool.ups) == Addresses(s.pool.ups)
    ensures WellPlaced(cfg, s')
  {
    var ce := s.queries[q].ce;
    ReportedCachePlaced(cfg, s.dialed, s.pool, ce);
    PendingPlaced(cfg, s.dialed, Addresses(s.pool.ups), s.pending, Spawned(s.pool, ce));
  }

  lemma AsyncClosePlaced(cfg: Config, s: State, k: nat, s': State)
    requires WellPlaced(cfg, s) && AsyncCloseStep(cfg, s, k, s')
    requires Addresses(s'.pool.ups) == Addresses(s.pool.ups)
    ensures WellPlaced(cfg, s')
  {
    ReportedCachePlaced(cfg, s.dialed, s.pool, s.pending[k]);
    PendingPlaced(cfg, s.dialed, Addresses(s.pool.ups), s.pending, []);
    PendingPlaced(cfg, s.dialed, Addresses(s.pool.ups), s.pending[..k] + s.pending[k + 1..],
                  Spawned(s.pool, s.pending[k]));
  }

  lemma WellPlacedStep(cfg: Config, s: State, act: Action, s': State)
    requires WellPlaced(cfg, s) && Next(cfg, s, act, s')
    requires Addresses(s'.pool.ups) == Addresses(s.pool.ups)
    ensures WellPlaced(cfg, s')
  {
    hide AddressOf;
    match act
    case Take(q) => TakePlaced(cfg, s, s'.clock, s.queries[q].i);
    case Exchange(q, rtt, ok) => AddExchangeHonest(cfg, s.queries[q].ce, rtt);
    case DialOk(q, rtt) => DialOkPlaced(cfg, s, q, rtt, s');
    case DialFail(q) => DialFailPlaced(cfg, s, q, s');
    case Return(q) => ReturnPlaced(cfg, s, q, s');
    case Close(q) => ClosePlaced(cfg, s, q, s');
    case AsyncClose(k) => AsyncClosePlaced(cfg, s, k, s');
    case _ =>
  }

  // ----------------------------------------------------------- conservation

  lemma IdleElsewhere(cfg: Config, s: State, addr: string, id: nat)
    requires WellPlaced(cfg, s) && id < |s.dialed| && s.dialed[id] != addr
    ensures Occ(Idle(s.pool.cache, addr), id) == 0
  {
    OccAbsent(Idle(s.pool.cache, addr), id);
  }

  /** What a purge takes out of the idle lists it hands to the goroutines. */
  lemma PurgeMoves(cfg: Config, s: State, addr: string, id: nat)
    requires WellPlaced(cfg, s) && id < |s.dialed|
    ensures Occ(Idle(Purge(s.pool.cache, addr), s.dialed[id]), id) + Occ(Idle(s.pool.cache, addr), id)
         == Occ(Idle(s.pool.cache, s.dialed[id]), id)
  {
    if s.dialed[id] != addr {
      IdleElsewhere(cfg, s, addr, id);
    }
  }

  lemma ReportMoves(cfg: Config, s: State, ce: Conn, id: nat)
    requires WellPlaced(cfg, s) && id < |s.dialed|
    ensures Occ(Idle(ReportedCache(s.pool, ce), s.dialed[id]), id) + Occ(Spawned(s.pool, ce), id)
         == Occ(Idle(s.pool.cache, s.dialed[id]), id)
  {
    PurgeMoves(cfg, s, ce.addr, id);
  }

  lemma TakePlaces(cfg: Config, s: State, q: nat, s': State, id: nat)
    requires WellPlaced(cfg, s) && TakeStep(s, q, s') && id < |s.dialed|
    ensures Places(s', id) == Places(s, id)
  {
    hide AddressOf;
    CountUpdate(s.queries, q, s'.queries[q], Holds(id));
    var addr := Choose(s.pool, s'.clock).Address();
    if s.dialed[id] != addr {
      IdleElsewhere(cfg, s, addr, id);
    }
  }

  lemma DialOkPlaces(cfg: Config, s: State, q: nat, rtt: nat, s': State, id: nat)
    requires WellPlaced(cfg, s) && DialOkStep(cfg, s, q, rtt, s') && id <= |s.dialed|
    ensures Places(s', id) == if id < |s.dialed| then Places(s, id) else 1
  {
    CountUpdate(s.queries, q, s'.queries[q], Holds(id));
    if id == |s.dialed| {
      OccAbsent(Idle(s.pool.cache, s.queries[q].addr), id);
      OccAbsent(s.pending, id);
      assert Matching(s.queries, Holds(id)) == {};
      assert id !in s.closed;
    }
  }

  lemma DialFailPlaces(cfg: Config, s: State, q: nat, s': State, id: nat)
    requires WellPlaced(cfg, s) && DialFailStep(cfg, s, q, s') && id < |s.dialed|
    ensures Places(s', id) == Places(s, id)
  {
    var addr := s.queries[q].addr;
    CountUpdate(s.queries, q, s'.queries[q], Holds(id));
    PurgeMoves(cfg, s, addr, id);
    OccConcat(s.pending, DialSpawned(s.pool, addr), id);
  }

  lemma ClosePlaces(cfg: Config, s: State, q: nat, s': State, id: nat)
    requires WellPlaced(cfg, s) && QueryCloseStep(cfg, s, q, s') && id < |s.dialed|
    ensures Places(s', id) == Places(s, id)
  {
    var ce := s.queries[q].ce;
    CountUpdate(s.queries, q, s'.queries[q], Holds(id));
    ReportMoves(cfg, s, ce, id);
    OccConcat(s.pending, Spawned(s.pool, ce), id);
  }

  lemma ReturnPlaces(cfg: Config, s: State, q: nat, s': State, id: nat)
    requires WellPlaced(cfg, s) && ReturnStep(cfg, s, q, s') && id < |s.dialed|
    ensures Places(s', id) == Places(s, id)
  {
    hide AddressOf;
    var ce := s.queries[q].ce;
    CountUpdate(s.queries, q, s'.queries[q], Holds(id));
    ReportMoves(cfg, s, ce, id);
    OccConcat(s.pending, Spawned(s.pool, ce), id);
    OccConcat(Idle(ReportedCache(s.pool, ce), ce.addr), [ce], id);
    assert PhasePlaced(cfg, s.dialed, Addresses(s.pool.ups), s.queries[q]);
  }

  lemma AsyncClosePlaces(cfg: Config, s: State, k: nat, s': State, id: nat)
    requires WellPlaced(cfg, s) && AsyncCloseStep(cfg, s, k, s') && id < |s.dialed|
    ensures Places(s', id) == Places(s, id)
  {
    var ce := s.pending[k];
    ReportMoves(cfg, s, ce, id);
    OccRemove(s.pending, k, id);
    OccConcat(s.pending[..k] + s.pending[k + 1..], Spawned(s.pool, ce), id);
  }

  lemma OtherPlaces(cfg: Config, s: State, act: Action, s': State, id: nat)
    requires act.Acquire? || act.Lookup? || act.Exchange? || act.Release?
    requires Next(cfg, s, act, s') && id < |s.dialed|
    ensures Places(s', id) == Places(s, id)
  {
    CountUpdate(s.queries, act.q, s'.queries[act.q], Holds(id));
  }

  lemma ConservedStep(cfg: Config, s: State, act: Action, s': State)
    requires WellPlaced(cfg, s) && Conserved(s) && Next(cfg, s, act, s')
    ensures Conserved(s')
  {
    forall id | 0 <= id < |s'.dialed| ensures Places(s', id) == 1 {
      match act
      case Take(q) => TakePlaces(cfg, s, q, s', id);
      case DialOk(q, rtt) => DialOkPlaces(cfg, s, q, rtt, s', id);
      case DialFail(q) => DialFailPlaces(cfg, s, q, s', id);
      case Return(q) => ReturnPlaces(cfg, s, q, s', id);
      case Close(q) => ClosePlaces(cfg, s, q, s', id);
      case AsyncClose(k) => AsyncClosePlaces(cfg, s, k, s', id);
      case _ => OtherPlaces(cfg, s, act, s', id);
    }
  }

  // ------------------------------------------------------ semaphore and load

  lemma SlotsStep(cfg: Config, s: State, act: Action, s': State)
    requires SlotsCounted(cfg, s) && Next(cfg, s, act, s')
    ensures SlotsCounted(cfg, s')
  {
    if !act.AsyncClose? {
      CountUpdate(s.queries, act.q, s'.queries[act.q], IsActive());
    }
  }

  /** Users of an address hold the semaphore. */
  lemma UsersAreActive(s: State, addr: string)
    ensures Count(s.queries, Uses(addr)) <= Count(s.queries, IsActive())
  {
    CountMonotone(s.queries, Uses(addr), IsActive());
  }

  lemma PurgeShrinks(cache: map<string, seq<Conn>>, addr: string, a: string)
    ensures |Idle(Purge(cache, addr), a)| <= |Idle(cache, a)|
  {
  }

  lemma TakeLoad(cfg: Config, s: State, q: nat, s': State, addr: string)
    requires WellPlaced(cfg, s) && TakeStep(s, q, s')
    ensures Load(s', addr) <= Load(s, addr) || Idle(s'.pool.cache, addr) == []
  {
    hide AddressOf;
    CountUpdate(s.queries, q, s'.queries[q], Uses(addr));
    var u := Choose(s.pool, s'.clock);
    if |Idle(s.pool.cache, u.Address())| > 0 {
      assert Idle(s.pool.cache, u.Address())[0].addr == u.Address();
    }
  }

  lemma ReturnLoad(cfg: Config, s: State, q: nat, s': State, addr: string)
    requires ReturnStep(cfg, s, q, s')
    ensures Load(s', addr) <= Load(s, addr)
  {
    CountUpdate(s.queries, q, s'.queries[q], Uses(addr));
    PurgeShrinks(s.pool.cache, s.queries[q].ce.addr, addr);
  }

  lemma CloseLoad(cfg: Config, s: State, q: nat, s': State, addr: string)
    requires QueryCloseStep(cfg, s, q, s')
    ensures Load(s', addr) <= Load(s, addr)
  {
    CountUpdate(s.queries, q, s'.queries[q], Uses(addr));
    PurgeShrinks(s.pool.cache, s.queries[q].ce.addr, addr);
  }

  lemma DialLoad(cfg: Config, s: State, act: Action, s': State, addr: string)
    requires (act.DialOk? || act.DialFail?) && Next(cfg, s, act, s')
    ensures Load(s', addr) <= Load(s, addr)
  {
    CountUpdate(s.queries, act.q, s'.queries[act.q], Uses(addr));
    PurgeShrinks(s.pool.cache, s.queries[act.q].addr, addr);
  }

  lemma OtherLoad(cfg: Config, s: State, act: Action, s': State, addr: string)
    requires act.Acquire? || act.Lookup? || act.Exchange? || act.Release?
    requires Next(cfg, s, act, s')
    ensures Load(s', addr) <= Load(s, addr)
  {
    CountUpdate(s.queries, act.q, s'.queries[act.q], Uses(addr));
  }

  /** Only a miss makes the load of an address grow, and a miss finds its list empty. */
  lemma LoadStep(cfg: Config, s: State, act: Action, s': State, addr: string)
    requires WellPlaced(cfg, s) && Next(cfg, s, act, s')
    ensures || Load(s', addr) <= Load(s, addr)
            || (act.Take? && Idle(s'.pool.cache, addr) == [])
  {
    match act
    case Take(q) => TakeLoad(cfg, s, q, s', addr);
    case Return(q) => ReturnLoad(cfg, s, q, s', addr);
    case Close(q) => CloseLoad(cfg, s, q, s', addr);
    case AsyncClose(k) => PurgeShrinks(s.pool.cache, s.pending[k].addr, addr);
    case DialOk(_, _) => DialLoad(cfg, s, act, s', addr);
    case DialFail(_) => DialLoad(cfg, s, act, s', addr);
    case _ => OtherLoad(cfg, s, act, s', addr);
  }

  lemma LoadBoundedStep(cfg: Config, s: State, act: Action, s': State)
    requires WellPlaced(cfg, s) && LoadBounded(cfg, s) && SlotsCounted(cfg, s') && Next(cfg, s, act, s')
    ensures LoadBounded(cfg, s')
  {
    forall addr ensures Load(s', addr) <= cfg.concurrency {
      LoadStep(cfg, s, act, s', addr);
      UsersAreActive(s', addr);
    }
  }

  // ----------------------------------------------- errored connections, attempts

  lemma ReturnKeepsErrors(cfg: Config, s: State, q: nat, s': State)
    requires ErrorsAtHead(s.pool.cache) && WellPlaced(cfg, s) && Next(cfg, s, Return(q), s')
    ensures ErrorsAtHead(s'.pool.cache)
  {
    assert PhasePlaced(cfg, s.dialed, Addresses(s.pool.ups), s.queries[q]);
    KnownIffAddress(s.pool.ups, s.queries[q].ce.addr);
  }

  lemma ErrorsAtHeadStep(cfg: Config, s: State, act: Action, s': State)
    requires ErrorsAtHead(s.pool.cache) && WellPlaced(cfg, s) && Next(cfg, s, act, s')
    ensures ErrorsAtHead(s'.pool.cache)
  {
    hide AddressOf;
    match act
    case Return(q) => ReturnKeepsErrors(cfg, s, q, s');
    case _ =>
  }

  lemma AttemptsStep(cfg: Config, s: State, act: Action, s': State)
    requires Attempts(cfg, s) && Next(cfg, s, act, s')
    ensures Attempts(cfg, s')
  {
    hide AddressOf, Choose, AddStep, CloseStep, DialFailure;
  }

  // ------------------------------------------------------------------- runs

  lemma InitInv(cfg: Config, s: State)
    requires Init(cfg, s)
    ensures Inv(cfg, s)
  {
    assert Matching(s.queries, IsActive()) == {};
    forall addr ensures Load(s, addr) == 0 {
      assert Matching(s.queries, Uses(addr)) == {};
    }
  }

  lemma InvStep(cfg: Config, s: State, act: Action, s': State)
    requires Inv(cfg, s) && Next(cfg, s, act, s')
    ensures Inv(cfg, s')
  {
    RecordsStep(cfg, s, act, s');
    WellPlacedStep(cfg, s, act, s');
    ConservedStep(cfg, s, act, s');
    SlotsStep(cfg, s, act, s');
    LoadBoundedStep(cfg, s, act, s');
    ErrorsAtHeadStep(cfg, s, act, s');
    AttemptsStep(cfg, s, act, s');
  }

  /** Every state of every run satisfies the invariant. */
  lemma {:induction false} RunInv(cfg: Config, tr: seq<State>, acts: seq<Action>, k: nat)
    requires Run(cfg, tr, acts) && k < |tr|
    ensures Inv(cfg, tr[k])
  {
    if k == 0 {
      InitInv(cfg, tr[0]);
    } else {
      RunInv(cfg, tr, acts, k - 1);
      assert StepAt(cfg, tr, acts, k - 1);
      InvStep(cfg, tr[k - 1], acts[k - 1], tr[k]);
    }
  }
}
