/** Safety over whole interleaved runs of the mutex server. */
module MutexRuns {
  import opened PoolSpec
  import opened Counting
  import opened MutexSystem
  import opened MutexInvariant

  // ------------------------------------------------------------- pool bound

  lemma {:induction false} SameAddresses(cfg: Config, tr: seq<State>, acts: seq<Action>, k: nat)
    requires Run(cfg, tr, acts) && k < |tr|
    ensures Addresses(tr[k].pool.ups) == Addresses(tr[0].pool.ups) && |tr[k].pool.ups| == |tr[0].pool.ups|
  {
    hide Next;
    if k > 0 {
      SameAddresses(cfg, tr, acts, k - 1);
      RunInv(cfg, tr, acts, k - 1);
      assert StepAt(cfg, tr, acts, k - 1);
      RecordsStep(cfg, tr[k - 1], acts[k - 1], tr[k]);
      SameLength(cfg, tr[k - 1], acts[k - 1], tr[k]);
    }
  }

  lemma SameLength(cfg: Config, s: State, act: Action, s': State)
    requires Records(cfg, s.pool.ups, s.clock) && Next(cfg, s, act, s')
    ensures |s'.pool.ups| == |s.pool.ups|
  {
    match act
    case Close(q) => ReportedRecords(cfg, s.pool.ups, s.queries[q].ce, s'.clock, s'.pool.ups);
    case Return(q) => ReportedRecords(cfg, s.pool.ups, s.queries[q].ce, s'.clock, s'.pool.ups);
    case AsyncClose(k) => ReportedRecords(cfg, s.pool.ups, s.pending[k], s'.clock, s'.pool.ups);
    case _ =>
  }

  /** With concurrency limit c, the connections to one address that are idle, held or being
      dialed never exceed c, so the pool never holds more than c for each distinct address. */
  lemma PoolBound(cfg: Config, tr: seq<State>, acts: seq<Action>, k: nat)
    requires Run(cfg, tr, acts) && k < |tr|
    ensures forall addr :: Load(tr[k], addr) <= cfg.concurrency
    ensures Total(tr[k].pool.cache) <= cfg.concurrency * |Addresses(tr[0].pool.ups)|
  {
    RunInv(cfg, tr, acts, k);
    SameAddresses(cfg, tr, acts, k);
    var cache := tr[k].pool.cache;
    forall a | a in cache ensures |cache[a]| <= cfg.concurrency {
      assert Load(tr[k], a) <= cfg.concurrency;
    }
    TotalBound(cache, cfg.concurrency);
    SubsetSize(cache.Keys, Addresses(tr[0].pool.ups));
    assert |cache| == |cache.Keys|;
    Multiply(cfg.concurrency, |cache|, |Addresses(tr[0].pool.ups)|);
  }

  lemma Multiply(c: nat, m: nat, n: nat)
    requires m <= n
    ensures c * m <= c * n
  {
  }

  // ----------------------------------------------------------- conservation

  lemma OccTwice(cs: seq<Conn>, j: nat, k: nat)
    requires j < k < |cs| && cs[j].id == cs[k].id
    ensures Occ(cs, cs[j].id) >= 2
  {
    OccRemove(cs, j, cs[j].id);
    var rest := cs[..j] + cs[j + 1..];
    assert rest[k - 1] == cs[k];
    OccMember(rest, k - 1);
  }

  lemma HeldTwice(queries: map<nat, Phase>, q: nat, r: nat, id: nat)
    requires q in queries && r in queries && q != r && Holds(id)(queries[q]) && Holds(id)(queries[r])
    ensures Count(queries, Holds(id)) >= 2
  {
    SubsetSize({q, r}, Matching(queries, Holds(id)));
  }

  /** At every moment each connection ever dialed is in exactly one place; in particular its
      socket is closed at most once. */
  lemma Conservation(cfg: Config, tr: seq<State>, acts: seq<Action>, k: nat, id: nat)
    requires Run(cfg, tr, acts) && k < |tr| && id < |tr[k].dialed|
    ensures Places(tr[k], id) == 1 && tr[k].closed[id] <= 1
  {
    RunInv(cfg, tr, acts, k);
  }

  /** The same spelled out for an idle connection: it is idle once, under its own address, no
      query holds it, no goroutine is about to close it, and it is open. */
  lemma IdleExclusively(cfg: Config, tr: seq<State>, acts: seq<Action>, k: nat, a: string, j: nat)
    requires Run(cfg, tr, acts) && k < |tr|
    requires a in tr[k].pool.cache && j < |tr[k].pool.cache[a]|
    ensures var s := tr[k]; var ce := s.pool.cache[a][j];
            && ce.addr == a
            && (forall b, i | b in s.pool.cache && 0 <= i < |s.pool.cache[b]| && s.pool.cache[b][i].id == ce.id ::
                  b == a && i == j)
            && (forall q | q in s.queries && s.queries[q].HasConn() :: s.queries[q].ce.id != ce.id)
            && (forall c | c in s.pending :: c.id != ce.id)
            && ce.id !in s.closed
  {
    var s := tr[k];
    var ce := s.pool.cache[a][j];
    RunInv(cfg, tr, acts, k);
    OccMember(s.pool.cache[a], j);
    assert Places(s, ce.id) == 1;
    forall b, i | b in s.pool.cache && 0 <= i < |s.pool.cache[b]| && s.pool.cache[b][i].id == ce.id
      ensures b == a && i == j
    {
      assert s.pool.cache[b][i].addr == b;
      if i < j {
        OccTwice(s.pool.cache[a], i, j);
      } else if j < i {
        OccTwice(s.pool.cache[a], j, i);
      }
    }
    forall q | q in s.queries && s.queries[q].HasConn() ensures s.queries[q].ce.id != ce.id {
      if s.queries[q].ce.id == ce.id {
        CountMember(s.queries, q, Holds(ce.id));
      }
    }
    forall c | c in s.pending ensures c.id != ce.id {
      var i :| 0 <= i < |s.pending| && s.pending[i] == c;
      OccMember(s.pending, i);
    }
  }

  /** Get never hands out a connection that somebody holds, that is about to be closed or
      that is closed, and afterwards the taker is its only holder. */
  lemma TakenExclusively(cfg: Config, tr: seq<State>, acts: seq<Action>, k: nat, q: nat)
    requires Run(cfg, tr, acts) && k < |acts| && acts[k] == Take(q)
    requires q in tr[k + 1].queries && tr[k + 1].queries[q].Exchanging?
    ensures var s, s' := tr[k], tr[k + 1]; var ce := s'.queries[q].ce;
            && (forall r | r in s.queries && s.queries[r].HasConn() :: s.queries[r].ce.id != ce.id)
            && (forall c | c in s.pending :: c.id != ce.id) && ce.id !in s.closed
            && (forall r | r in s'.queries && s'.queries[r].HasConn() && s'.queries[r].ce.id == ce.id :: r == q)
            && Occ(Idle(s'.pool.cache, ce.addr), ce.id) == 0
  {
    var s, s' := tr[k], tr[k + 1];
    assert StepAt(cfg, tr, acts, k);
    IdleExclusively(cfg, tr, acts, k, Choose(s.pool, s'.clock).Address(), 0);
    RunInv(cfg, tr, acts, k + 1);
    var ce := s'.queries[q].ce;
    CountMember(s'.queries, q, Holds(ce.id));
    assert PhasePlaced(cfg, s'.dialed, Addresses(s'.pool.ups), s'.queries[q]);
    assert Places(s', ce.id) == 1;
    forall r | r in s'.queries && s'.queries[r].HasConn() && s'.queries[r].ce.id == ce.id ensures r == q {
      if r != q {
        HeldTwice(s'.queries, q, r, ce.id);
      }
    }
  }

  /** A connection held by a query is neither idle nor waiting to be closed. */
  lemma HeldElsewhere(cfg: Config, s: State, q: nat)
    requires Inv(cfg, s) && q in s.queries && s.queries[q].HasConn()
    ensures forall a, k | a in s.pool.cache && 0 <= k < |s.pool.cache[a]| :: s.pool.cache[a][k].id != s.queries[q].ce.id
    ensures forall k | 0 <= k < |s.pending| :: s.pending[k].id != s.queries[q].ce.id
  {
    var id := s.queries[q].ce.id;
    CountMember(s.queries, q, Holds(id));
    assert PhasePlaced(cfg, s.dialed, Addresses(s.pool.ups), s.queries[q]);
    assert Places(s, id) == 1;
    forall a, k | a in s.pool.cache && 0 <= k < |s.pool.cache[a]| ensures s.pool.cache[a][k].id != id {
      if s.pool.cache[a][k].id == id {
        assert s.pool.cache[a][k].addr == a;
        OccMember(s.pool.cache[a], k);
      }
    }
    forall k | 0 <= k < |s.pending| ensures s.pending[k].id != id {
      if s.pending[k].id == id {
        OccMember(s.pending, k);
      }
    }
  }

  // ---------------------------------------------------- errors and failures

  /** The connection an action reports to updateUpstream. */
  function ReportOf(s: State, act: Action): Option<Conn> {
    match act
    case Close(q) => if q in s.queries && s.queries[q].Closing? then Some(s.queries[q].ce) else None
    case Return(q) => if q in s.queries && s.queries[q].Adding? then Some(s.queries[q].ce) else None
    case AsyncClose(k) => if k < |s.pending| then Some(s.pending[k]) else None
    case _ => None
  }

  function FailedDial(s: State, act: Action): Option<string> {
    if act.DialFail? && act.q in s.queries && s.queries[act.q].Dialing? then Some(s.queries[act.q].addr) else None
  }

  /** The address an action cools: that of a failed dial or of a reported errored connection. */
  function Failing(s: State, act: Action): Option<string> {
    match ReportOf(s, act)
    case Some(ce) => if ce.err then Some(ce.addr) else None
    case None => FailedDial(s, act)
  }

  /** The record an action touches by its address. */
  function TouchedAddress(s: State, act: Action): Option<string> {
    match ReportOf(s, act)
    case Some(ce) => Some(ce.addr)
    case None => FailedDial(s, act)
  }

  /** Lookups by address never fail: every address that is reported or whose dial failed is
      that of a registered upstream. */
  lemma AddressesKnown(cfg: Config, s: State, act: Action)
    requires Inv(cfg, s) && TouchedAddress(s, act).Some?
    ensures Known(s.pool.ups, TouchedAddress(s, act).value)
  {
    if !act.AsyncClose? {
      assert PhasePlaced(cfg, s.dialed, Addresses(s.pool.ups), s.queries[act.q]);
    }
    KnownIffAddress(s.pool.ups, TouchedAddress(s, act).value);
  }

  /** In every reachable state an idle list has at most one errored connection, at its head. */
  lemma ErrorsStayAtHead(cfg: Config, tr: seq<State>, acts: seq<Action>, k: nat, a: string, j: nat)
    requires Run(cfg, tr, acts) && k < |tr|
    requires a in tr[k].pool.cache && j < |tr[k].pool.cache[a]| && tr[k].pool.cache[a][j].err
    ensures j == 0
  {
    RunInv(cfg, tr, acts, k);
  }

  // ---------------------------------------------------------------- records

  /** The record found for an address, and what a step makes of it. */
  function Found(ups: seq<Upstream>, addr: string): Upstream
    requires Known(ups, addr)
  {
    ups[FirstAt(ups, addr)]
  }

  function Touched(cfg: Config, s: State, act: Action, now: Time): Upstream
    requires TouchedAddress(s, act).Some? && Known(s.pool.ups, TouchedAddress(s, act).value)
  {
    var u := Found(s.pool.ups, TouchedAddress(s, act).value);
    match ReportOf(s, act)
    case Some(ce) => Report(cfg, u, ce, now)
    case None => Cool(cfg, u, now)
  }

  /** The list of records after a step. */
  lemma RecordsAfter(cfg: Config, s: State, act: Action, s': State)
    requires Next(cfg, s, act, s')
    ensures TouchedAddress(s, act).None? ==> s'.pool.ups == s.pool.ups
    ensures ReportOf(s, act).Some? ==> Reported(cfg, s.pool.ups, ReportOf(s, act).value, s'.clock, s'.pool.ups)
    ensures ReportOf(s, act).None? && TouchedAddress(s, act).Some? ==>
              act.DialFail? && s'.pool.ups == DialFailure(cfg, s.pool, TouchedAddress(s, act).value, s'.clock).ups
  {
    hide AddressOf, Choose, Reported, DialFailure;
  }

  lemma TouchedIdentity(cfg: Config, s: State, act: Action, now: Time)
    requires TouchedAddress(s, act).Some? && Known(s.pool.ups, TouchedAddress(s, act).value)
    ensures Touched(cfg, s, act, now).Identity() == Found(s.pool.ups, TouchedAddress(s, act).value).Identity()
  {
    hide AddressOf, Known, Found;
  }

  lemma TouchedReplaces(cfg: Config, s: State, act: Action, s': State)
    requires Next(cfg, s, act, s') && TouchedAddress(s, act).Some? && Known(s.pool.ups, TouchedAddress(s, act).value)
    ensures Replaced(s.pool.ups, Found(s.pool.ups, TouchedAddress(s, act).value), Touched(cfg, s, act, s'.clock), s'.pool.ups)
  {
    hide AddressOf, Next, Replaced, Reported, DialFailure, Report, Cool;
    RecordsAfter(cfg, s, act, s');
    match ReportOf(s, act)
    case Some(ce) => ReportedReplaces(cfg, s.pool.ups, ce, s'.clock, s'.pool.ups);
    case None => DialFailureReplaces(cfg, s.pool, TouchedAddress(s, act).value, s'.clock);
  }

  /** A step changes at most the one record found for the touched address. */
  lemma TouchesOne(cfg: Config, s: State, act: Action, s': State)
    requires Inv(cfg, s) && Next(cfg, s, act, s')
    ensures TouchedAddress(s, act).None? ==> s'.pool.ups == s.pool.ups
    ensures TouchedAddress(s, act).Some? ==>
              && Known(s.pool.ups, TouchedAddress(s, act).value)
              && var u := Found(s.pool.ups, TouchedAddress(s, act).value);
              && Touched(cfg, s, act, s'.clock).Identity() == u.Identity()
              && forall v :: v in s'.pool.ups <==>
                   v == Touched(cfg, s, act, s'.clock) || (v in s.pool.ups && v.ref != u.ref)
  {
    hide AddressOf, Next, Touched, Replaced;
    RecordsAfter(cfg, s, act, s');
    if TouchedAddress(s, act).Some? {
      AddressesKnown(cfg, s, act);
      TouchedReplaces(cfg, s, act, s');
      TouchedIdentity(cfg, s, act, s'.clock);
      ReplacedMembers(s.pool.ups, Found(s.pool.ups, TouchedAddress(s, act).value), Touched(cfg, s, act, s'.clock), s'.pool.ups);
    }
  }

  lemma SameRecord(ups: seq<Upstream>, u: Upstream, v: Upstream)
    requires Distinct(ups) && u in ups && v in ups && u.ref == v.ref
    ensures u == v
  {
    assert u in multiset(ups) && v in multiset(ups);
  }

  /** Does this action set the weight of the record with this reference? */
  predicate SetsWeight(s: State, act: Action, ref: nat) {
    match ReportOf(s, act)
    case Some(ce) => ce.Weight() != 0.0 && Known(s.pool.ups, ce.addr) && Found(s.pool.ups, ce.addr).ref == ref
    case None => false
  }

  /** What one step does to one record. */
  ghost predicate RecordStep(cfg: Config, s: State, act: Action, now: Time, u: Upstream, v: Upstream) {
    && v.Identity() == u.Identity()
    && u.wakeup <= v.wakeup
    && if SetsWeight(s, act, v.ref) then
         && v.weight == ReportOf(s, act).value.Weight()
         && (v.weight > cfg.RttLimit() as real ==>
               ReportOf(s, act).value.err && v.wakeup == now + cfg.CooldownPeriod())
       else v.weight == u.weight
  }

  lemma ReportedIsHonest(cfg: Config, s: State, act: Action)
    requires Inv(cfg, s) && ReportOf(s, act).Some?
    ensures var ce := ReportOf(s, act).value; ce.Weight() > cfg.RttLimit() as real ==> ce.err
  {
    var ce := ReportOf(s, act).value;
    assert ce.Honest(cfg) by {
      if !act.AsyncClose? {
        assert PhasePlaced(cfg, s.dialed, Addresses(s.pool.ups), s.queries[act.q]);
      }
    }
    if !ce.err {
      WeightBound(cfg, ce);
    }
  }

  lemma TouchedStep(cfg: Config, s: State, act: Action, s': State)
    requires Inv(cfg, s) && Next(cfg, s, act, s') && TouchedAddress(s, act).Some?
    requires Known(s.pool.ups, TouchedAddress(s, act).value)
    ensures RecordStep(cfg, s, act, s'.clock, Found(s.pool.ups, TouchedAddress(s, act).value), Touched(cfg, s, act, s'.clock))
  {
    hide AddressOf;
    assert Found(s.pool.ups, TouchedAddress(s, act).value) in s.pool.ups;
    if ReportOf(s, act).Some? {
      ReportedIsHonest(cfg, s, act);
    }
  }

  lemma UntouchedStep(cfg: Config, s: State, act: Action, now: Time, u: Upstream)
    requires Distinct(s.pool.ups) && u in s.pool.ups
    requires TouchedAddress(s, act).Some? ==>
               Known(s.pool.ups, TouchedAddress(s, act).value) && Found(s.pool.ups, TouchedAddress(s, act).value).ref != u.ref
    ensures RecordStep(cfg, s, act, now, u, u)
  {
  }

  /** Every record after a step comes from one before it... */
  lemma Predecessor(cfg: Config, tr: seq<State>, acts: seq<Action>, k: nat, v: Upstream) returns (u: Upstream)
    requires Run(cfg, tr, acts) && k < |acts| && v in tr[k + 1].pool.ups
    ensures u in tr[k].pool.ups && RecordStep(cfg, tr[k], acts[k], tr[k + 1].clock, u, v)
  {
    var s, act, s' := tr[k], acts[k], tr[k + 1];
    RunInv(cfg, tr, acts, k);
    assert StepAt(cfg, tr, acts, k);
    TouchesOne(cfg, s, act, s');
    if TouchedAddress(s, act).Some? && v == Touched(cfg, s, act, s'.clock) {
      u := Found(s.pool.ups, TouchedAddress(s, act).value);
      TouchedStep(cfg, s, act, s');
    } else {
      u := v;
      UntouchedStep(cfg, s, act, s'.clock, u);
    }
  }

  /** ...and every record before it has a successor. */
  lemma Successor(cfg: Config, tr: seq<State>, acts: seq<Action>, k: nat, u: Upstream) returns (v: Upstream)
    requires Run(cfg, tr, acts) && k < |acts| && u in tr[k].pool.ups
    ensures v in tr[k + 1].pool.ups && RecordStep(cfg, tr[k], acts[k], tr[k + 1].clock, u, v)
  {
    var s, act, s' := tr[k], acts[k], tr[k + 1];
    RunInv(cfg, tr, acts, k);
    assert StepAt(cfg, tr, acts, k);
    TouchesOne(cfg, s, act, s');
    if TouchedAddress(s, act).Some? && u.ref == Found(s.pool.ups, TouchedAddress(s, act).value).ref {
      v := Touched(cfg, s, act, s'.clock);
      SameRecord(s.pool.ups, u, Found(s.pool.ups, TouchedAddress(s, act).value));
      TouchedStep(cfg, s, act, s');
    } else {
      v := u;
      UntouchedStep(cfg, s, act, s'.clock, u);
    }
  }

  lemma RunDistinct(cfg: Config, tr: seq<State>, acts: seq<Action>, k: nat)
    requires Run(cfg, tr, acts) && k < |tr|
    ensures Sorted(tr[k].pool.ups) && Distinct(tr[k].pool.ups)
  {
    RunInv(cfg, tr, acts, k);
  }

  ghost predicate Registered(ups: seq<Upstream>, id: (nat, string, int)) {
    exists u :: u in ups && u.Identity() == id
  }

  lemma RegisteredStep(cfg: Config, tr: seq<State>, acts: seq<Action>, k: nat, id: (nat, string, int))
    requires Run(cfg, tr, acts) && k < |acts|
    ensures Registered(tr[k + 1].pool.ups, id) <==> Registered(tr[k].pool.ups, id)
  {
    hide StepAt;
    if u :| u in tr[k].pool.ups && u.Identity() == id {
      var v := Successor(cfg, tr, acts, k, u);
    }
    if v :| v in tr[k + 1].pool.ups && v.Identity() == id {
      var u := Predecessor(cfg, tr, acts, k, v);
    }
  }

  /** The list stays in weight order, and stays a permutation of the registered upstreams:
      the same number of records, no two with the same identity, the same identities. */
  lemma {:induction false} SortedPermutation(cfg: Config, tr: seq<State>, acts: seq<Action>, k: nat)
    requires Run(cfg, tr, acts) && k < |tr|
    ensures Sorted(tr[k].pool.ups) && Distinct(tr[k].pool.ups) && |tr[k].pool.ups| == |tr[0].pool.ups|
    ensures forall id :: Registered(tr[k].pool.ups, id) <==> Registered(tr[0].pool.ups, id)
  {
    hide StepAt;
    RunDistinct(cfg, tr, acts, k);
    SameAddresses(cfg, tr, acts, k);
    if k > 0 {
      SortedPermutation(cfg, tr, acts, k - 1);
      forall id ensures Registered(tr[k].pool.ups, id) <==> Registered(tr[k - 1].pool.ups, id) {
        RegisteredStep(cfg, tr, acts, k - 1, id);
      }
    }
  }

  // --------------------------------------------------------------- cooldown

  lemma {:induction false} RunClock(cfg: Config, tr: seq<State>, acts: seq<Action>, j: nat, k: nat)
    requires Run(cfg, tr, acts) && j <= k < |tr|
    ensures tr[j].clock <= tr[k].clock
    decreases k
  {
    if j < k {
      RunClock(cfg, tr, acts, j, k - 1);
      assert StepAt(cfg, tr, acts, k - 1);
    }
  }

  /** Cooldown is never shortened: along a run the wakeup time of a record never goes back. */
  lemma {:induction false} WakeupMonotone(cfg: Config, tr: seq<State>, acts: seq<Action>, j: nat, k: nat, u: Upstream, v: Upstream)
    requires Run(cfg, tr, acts) && j <= k < |tr|
    requires u in tr[j].pool.ups && v in tr[k].pool.ups && u.ref == v.ref
    ensures u.wakeup <= v.wakeup
    decreases k
  {
    if j == k {
      RunDistinct(cfg, tr, acts, k);
      SameRecord(tr[k].pool.ups, u, v);
    } else {
      var w := Predecessor(cfg, tr, acts, k - 1, v);
      WakeupMonotone(cfg, tr, acts, j, k - 1, u, w);
    }
  }

  /** The record cooled by an action. */
  function Cooled(s: State, act: Action): Option<nat> {
    match Failing(s, act)
    case Some(addr) => if Known(s.pool.ups, addr) then Some(Found(s.pool.ups, addr).ref) else None
    case None => None
  }

  lemma FailureCools(cfg: Config, tr: seq<State>, acts: seq<Action>, j: nat) returns (u: Upstream)
    requires Run(cfg, tr, acts) && j < |acts| && Failing(tr[j], acts[j]).Some?
    ensures u in tr[j + 1].pool.ups && u.wakeup == tr[j + 1].clock + cfg.CooldownPeriod()
    ensures Cooled(tr[j], acts[j]) == Some(u.ref) && u.Address() == Failing(tr[j], acts[j]).value
  {
    hide AddressOf;
    RunInv(cfg, tr, acts, j);
    assert StepAt(cfg, tr, acts, j);
    TouchesOne(cfg, tr[j], acts[j], tr[j + 1]);
    u := Touched(cfg, tr[j], acts[j], tr[j + 1].clock);
  }

  /** After a failed dial, or the close or return of an errored connection, the upstream cools
      for a whole cooldown period whatever other queries do meanwhile. */
  lemma CoolsAfterFailure(cfg: Config, tr: seq<State>, acts: seq<Action>, j: nat, k: nat, v: Upstream, t: Time)
    requires Run(cfg, tr, acts) && j < k < |tr| && v in tr[k].pool.ups
    requires Failing(tr[j], acts[j]).Some? && Cooled(tr[j], acts[j]) == Some(v.ref)
    requires tr[j + 1].clock <= t < tr[j + 1].clock + cfg.CooldownPeriod()
    ensures v.Cooling(t)
  {
    hide StepAt, Failing;
    var u := FailureCools(cfg, tr, acts, j);
    WakeupMonotone(cfg, tr, acts, j + 1, k, u, v);
  }

  // ---------------------------------------------------------------- weights

  /** The last action before state k that set the weight of a record. */
  function LastSet(tr: seq<State>, acts: seq<Action>, k: nat, ref: nat): (r: Option<nat>)
    requires k <= |acts| <= |tr|
    ensures r.Some? ==> r.value < k && SetsWeight(tr[r.value], acts[r.value], ref)
                        && forall j :: r.value < j < k ==> !SetsWeight(tr[j], acts[j], ref)
    ensures r.None? ==> forall j :: 0 <= j < k ==> !SetsWeight(tr[j], acts[j], ref)
  {
    if k == 0 then None
    else if SetsWeight(tr[k - 1], acts[k - 1], ref) then Some(k - 1)
    else LastSet(tr, acts, k - 1, ref)
  }

  ghost predicate WeightSince(cfg: Config, tr: seq<State>, acts: seq<Action>, v: Upstream, last: Option<nat>)
    requires |tr| == |acts| + 1 && (last.Some? ==> last.value < |acts| && SetsWeight(tr[last.value], acts[last.value], v.ref))
  {
    match last
    case None => v.weight == 0.0
    case Some(j) =>
      && v.weight == ReportOf(tr[j], acts[j]).value.Weight()
      && (v.weight > cfg.RttLimit() as real ==>
            && ReportOf(tr[j], acts[j]).value.err
            && v.wakeup >= tr[j + 1].clock + cfg.CooldownPeriod())
  }

  /** The weight of a record is that of the last connection with a weight reported for it,
      and the start value 0 until there is one. A weight above the RTT timeout was set by the
      report of an errored connection, and that same update put the upstream to cooling for
      at least one period. */
  lemma {:induction false} WeightHistory(cfg: Config, tr: seq<State>, acts: seq<Action>, k: nat, v: Upstream)
    requires Run(cfg, tr, acts) && k < |tr| && v in tr[k].pool.ups
    ensures WeightSince(cfg, tr, acts, v, LastSet(tr, acts, k, v.ref))
  {
    hide StepAt, SetsWeight;
    if k > 0 {
      var u := Predecessor(cfg, tr, acts, k - 1, v);
      WeightHistory(cfg, tr, acts, k - 1, u);
    }
  }
}
