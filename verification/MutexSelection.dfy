/** Which upstream and which connection the queries of a run get. */
module MutexSelection {
  import opened PoolSpec
  import opened Counting
  import opened MutexSystem
  import opened MutexInvariant
  import opened MutexRuns

  // --------------------------------------------------------------- the tiers

  /** What a query gets in a run. A cooling upstream is only ever used when no other with a key
      in the map is awake; otherwise the lightest tier that is not empty decides. */
  lemma RunSelection(cfg: Config, tr: seq<State>, acts: seq<Action>, k: nat, q: nat)
    requires Run(cfg, tr, acts) && k < |acts| && acts[k] == Take(q)
    ensures |tr[k].pool.ups| > 0 && q in tr[k].queries && tr[k].queries[q].NeedConn? && q in tr[k + 1].queries
    ensures var p, now, i := tr[k].pool, tr[k + 1].clock, tr[k].queries[q].i;
            var u := Choose(p, now);
            && (AnyReady(p, now) ==>
                  LightestReady(p, now, u) && tr[k + 1].queries[q] == Exchanging(i, p.cache[u.Address()][0]))
            && (!AnyReady(p, now) && AnyOpen(p, now) ==>
                  LightestOpen(p, now, u) && tr[k + 1].queries[q] == Dialing(i, u.Address()))
            && (!AnyOpen(p, now) ==>
                  && u == p.ups[0] && (forall v | v in p.ups :: u.weight <= v.weight)
                  && tr[k + 1].queries[q] == var conns := Idle(p.cache, u.Address());
                       if |conns| > 0 then Exchanging(i, conns[0]) else Dialing(i, u.Address()))
            && (u.Cooling(now) ==> !AnyOpen(p, now))
  {
    RunInv(cfg, tr, acts, k);
    assert StepAt(cfg, tr, acts, k);
    var (out, p') := Get(tr[k].pool, tr[k + 1].clock);
    SelectionTiers(tr[k].pool, tr[k + 1].clock, Choose(tr[k].pool, tr[k + 1].clock), out, p');
    ChooseTier(tr[k].pool, tr[k + 1].clock);
  }

  // ------------------------------------------- before the first successful dial

  /** Nobody has a connection, and the only address anybody dials is this one, that of the
      head of the list. */
  ghost predicate OnlyTrying(s: State, addr: string) {
    && s.pool.cache == map[] && s.pending == []
    && |s.pool.ups| > 0 && s.pool.ups[0].Address() == addr
    && forall q | q in s.queries ::
         var ph := s.queries[q];
         && !ph.HasConn()
         && (ph.Dialing? ==> ph.addr == addr)
         && (ph.Done? || ph.Released? ==> ph.out != Answered)
  }

  lemma OnlyTryingStep(cfg: Config, s: State, act: Action, s': State, addr: string)
    requires OnlyTrying(s, addr) && Next(cfg, s, act, s') && !act.DialOk?
    ensures OnlyTrying(s', addr)
  {
    if act.Take? {
      ChooseOnEmpty(s.pool, s'.clock);
    }
  }

  lemma ChooseOnEmpty(p: Pool, now: Time)
    requires |p.ups| > 0 && p.cache == map[]
    ensures Choose(p, now) == p.ups[0]
  {
  }

  /** A first upstream that never answers: until some dial succeeds every query dials the head
      of the initial list and nothing else, cooling or not, and none is answered, however many
      other upstreams are configured. */
  lemma {:induction false} OnlyFirstTried(cfg: Config, tr: seq<State>, acts: seq<Action>, k: nat)
    requires Run(cfg, tr, acts) && k < |tr| && forall j :: 0 <= j < k ==> !acts[j].DialOk?
    ensures OnlyTrying(tr[k], tr[0].pool.ups[0].Address())
  {
    if k > 0 {
      OnlyFirstTried(cfg, tr, acts, k - 1);
      assert StepAt(cfg, tr, acts, k - 1);
      OnlyTryingStep(cfg, tr[k - 1], acts[k - 1], tr[k], tr[0].pool.ups[0].Address());
    }
  }

  // -------------------------------------------------- the oldest connection

  /** Does this action return connection `id` to the pool? */
  predicate Returns(s: State, act: Action, id: nat) {
    act.Return? && act.q in s.queries && s.queries[act.q].Adding? && s.queries[act.q].ce.id == id
  }

  /** The last step before state k that returned a connection. */
  function ReturnedAt(tr: seq<State>, acts: seq<Action>, k: nat, id: nat): (r: Option<nat>)
    requires k <= |acts| <= |tr|
    ensures r.Some? ==> r.value < k && Returns(tr[r.value], acts[r.value], id)
                        && forall j :: r.value < j < k ==> !Returns(tr[j], acts[j], id)
    ensures r.None? ==> forall j :: 0 <= j < k ==> !Returns(tr[j], acts[j], id)
  {
    if k == 0 then None
    else if Returns(tr[k - 1], acts[k - 1], id) then Some(k - 1)
    else ReturnedAt(tr, acts, k - 1, id)
  }

  ghost predicate InReturnOrder(tr: seq<State>, acts: seq<Action>, k: nat, conns: seq<Conn>)
    requires k <= |acts| <= |tr|
  {
    && (forall i | 0 <= i < |conns| :: ReturnedAt(tr, acts, k, conns[i].id).Some?)
    && forall i, j | 0 <= i < j < |conns| ::
         ReturnedAt(tr, acts, k, conns[i].id).value < ReturnedAt(tr, acts, k, conns[j].id).value
  }

  /** What one action can do to an idle list: leave it alone, pop its head, empty it, or
      return a connection to it. */
  predicate Moves(s: State, act: Action, conns: seq<Conn>, conns': seq<Conn>) {
    || conns' == conns || conns' == [] || (|conns| > 0 && conns' == conns[1..])
    || (act.Return? && act.q in s.queries && s.queries[act.q].Adding?
        && var ce := s.queries[act.q].ce; conns' == conns + [ce] || conns' == [ce])
  }

  lemma ListMoves(cfg: Config, s: State, act: Action, s': State, a: string)
    requires Next(cfg, s, act, s')
    ensures Moves(s, act, Idle(s.pool.cache, a), Idle(s'.pool.cache, a))
  {
    hide AddressOf, Choose;
  }

  lemma ListStep(cfg: Config, tr: seq<State>, acts: seq<Action>, k: nat, a: string)
    requires Run(cfg, tr, acts) && k < |acts|
    ensures Moves(tr[k], acts[k], Idle(tr[k].pool.cache, a), Idle(tr[k + 1].pool.cache, a))
    ensures forall i | 0 <= i < |Idle(tr[k].pool.cache, a)| :: !Returns(tr[k], acts[k], Idle(tr[k].pool.cache, a)[i].id)
  {
    assert StepAt(cfg, tr, acts, k);
    ListMoves(cfg, tr[k], acts[k], tr[k + 1], a);
    forall i | 0 <= i < |Idle(tr[k].pool.cache, a)|
      ensures !Returns(tr[k], acts[k], Idle(tr[k].pool.cache, a)[i].id)
    {
      IdleExclusively(cfg, tr, acts, k, a, i);
    }
  }

  lemma OrderKept(tr: seq<State>, acts: seq<Action>, k: nat, conns: seq<Conn>)
    requires k < |acts| <= |tr| && InReturnOrder(tr, acts, k, conns)
    requires forall i | 0 <= i < |conns| :: !Returns(tr[k], acts[k], conns[i].id)
    ensures InReturnOrder(tr, acts, k + 1, conns)
  {
    forall i | 0 <= i < |conns|
      ensures ReturnedAt(tr, acts, k + 1, conns[i].id) == ReturnedAt(tr, acts, k, conns[i].id)
    {
    }
  }

  lemma OrderAppended(tr: seq<State>, acts: seq<Action>, k: nat, conns: seq<Conn>, ce: Conn)
    requires k < |acts| <= |tr| && InReturnOrder(tr, acts, k, conns) && Returns(tr[k], acts[k], ce.id)
    requires forall i | 0 <= i < |conns| :: !Returns(tr[k], acts[k], conns[i].id)
    ensures InReturnOrder(tr, acts, k + 1, conns + [ce])
  {
    OrderKept(tr, acts, k, conns);
    assert ReturnedAt(tr, acts, k + 1, ce.id) == Some(k);
    forall i | 0 <= i < |conns|
      ensures ReturnedAt(tr, acts, k + 1, conns[i].id).value < k
    {
      assert ReturnedAt(tr, acts, k + 1, conns[i].id) == ReturnedAt(tr, acts, k, conns[i].id);
    }
  }

  lemma OrderStep(tr: seq<State>, acts: seq<Action>, k: nat, conns: seq<Conn>, conns': seq<Conn>)
    requires k < |acts| <= |tr| && InReturnOrder(tr, acts, k, conns) && Moves(tr[k], acts[k], conns, conns')
    requires forall i | 0 <= i < |conns| :: !Returns(tr[k], acts[k], conns[i].id)
    ensures InReturnOrder(tr, acts, k + 1, conns')
  {
    OrderKept(tr, acts, k, conns);
    if conns' != conns && conns' != [] && (|conns| == 0 || conns' != conns[1..]) {
      var ce := tr[k].queries[acts[k].q].ce;
      OrderAppended(tr, acts, k, if conns' == [ce] then [] else conns, ce);
      assert [] + [ce] == [ce];
    }
  }

  /** Each idle list is in the order in which its connections were returned, so the head that
      `Get` pops is the one that has waited longest. */
  lemma {:induction false} ReturnOrder(cfg: Config, tr: seq<State>, acts: seq<Action>, k: nat, a: string)
    requires Run(cfg, tr, acts) && k < |tr|
    ensures InReturnOrder(tr, acts, k, Idle(tr[k].pool.cache, a))
  {
    if k > 0 {
      var j := k - 1;
      var conns := Idle(tr[j].pool.cache, a);
      ReturnOrder(cfg, tr, acts, j, a);
      assert InReturnOrder(tr, acts, j, conns);
      ListStep(cfg, tr, acts, j, a);
      assert Moves(tr[j], acts[j], conns, Idle(tr[k].pool.cache, a));
      OrderStep(tr, acts, j, conns, Idle(tr[k].pool.cache, a));
    }
  }

  /** Of all idle connections to its address, a query that gets one gets the one returned first. */
  lemma OldestTaken(cfg: Config, tr: seq<State>, acts: seq<Action>, k: nat, q: nat, c: Conn)
    requires Run(cfg, tr, acts) && k < |acts| && acts[k] == Take(q)
    requires q in tr[k + 1].queries && tr[k + 1].queries[q].Exchanging?
    requires c in Idle(tr[k].pool.cache, tr[k + 1].queries[q].ce.addr) && c != tr[k + 1].queries[q].ce
    ensures var ce := tr[k + 1].queries[q].ce;
            && ReturnedAt(tr, acts, k, ce.id).Some? && ReturnedAt(tr, acts, k, c.id).Some?
            && ReturnedAt(tr, acts, k, ce.id).value < ReturnedAt(tr, acts, k, c.id).value
  {
    var ce := tr[k + 1].queries[q].ce;
    assert StepAt(cfg, tr, acts, k);
    var addr := Choose(tr[k].pool, tr[k + 1].clock).Address();
    var conns := Idle(tr[k].pool.cache, addr);
    assert |conns| > 0 && conns[0] == ce;
    IdleExclusively(cfg, tr, acts, k, addr, 0);
    var i :| 0 <= i < |conns| && conns[i] == c;
    ReturnOrder(cfg, tr, acts, k, ce.addr);
  }
}
