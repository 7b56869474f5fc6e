/** What each step of a run does to keys, idle lists, cooldowns and connections, exactly, and what
    these are therefore in terms of the whole run so far. */
module MutexLedger {
  import opened PoolSpec
  import opened Counting
  import opened MutexSystem
  import opened MutexInvariant
  import opened MutexRuns
  import opened MutexSelection
  import MutexFlagged

  // ------------------------------------------------------- keys and idle lists

  /** Does this action return a connection to this address? */
  predicate ReturnsTo(s: State, act: Action, a: string) {
    act.Return? && ReportOf(s, act).Some? && ReportOf(s, act).value.addr == a
  }

  /** The connection a step hands out. */
  function HandedOut(act: Action, s': State): Option<Conn> {
    if act.Take? && act.q in s'.queries && s'.queries[act.q].Exchanging? then Some(s'.queries[act.q].ce) else None
  }

  /** What one step makes of the idle list of an address. */
  ghost predicate ListAfter(s: State, act: Action, s': State, a: string, conns: seq<Conn>, conns': seq<Conn>) {
    if Failing(s, act) == Some(a) then
      conns' == if ReturnsTo(s, act, a) then [ReportOf(s, act).value] else []
    else if ReturnsTo(s, act, a) then
      conns' == conns + [ReportOf(s, act).value]
    else if HandedOut(act, s').Some? && HandedOut(act, s').value.addr == a then
      conns == [HandedOut(act, s').value] + conns'
    else
      conns' == conns
  }

  lemma TakeLists(cfg: Config, s: State, q: nat, s': State, a: string)
    requires WellPlaced(cfg, s) && TakeStep(s, q, s')
    ensures a in s'.pool.cache <==> a in s.pool.cache
    ensures ListAfter(s, Take(q), s', a, Idle(s.pool.cache, a), Idle(s'.pool.cache, a))
  {
    hide AddressOf, Choose;
    var addr := Choose(s.pool, s'.clock).Address();
    var conns := Idle(s.pool.cache, addr);
    if |conns| > 0 {
      assert s.pool.cache[addr][0].addr == addr;
      assert conns == [conns[0]] + conns[1..];
    }
  }

  lemma ReportLists(cfg: Config, s: State, act: Action, s': State, a: string)
    requires Next(cfg, s, act, s') && (act.Return? || act.Close? || act.AsyncClose?)
    requires ReportOf(s, act).Some? && Known(s.pool.ups, ReportOf(s, act).value.addr)
    ensures a in s'.pool.cache <==> a in s.pool.cache || ReturnsTo(s, act, a)
    ensures ListAfter(s, act, s', a, Idle(s.pool.cache, a), Idle(s'.pool.cache, a))
  {
    hide AddressOf, AddStep, CloseStep, Known;
    var ce := ReportOf(s, act).value;
    if act.Return? {
      AddLists(cfg, s.pool, ce, s'.clock, s'.pool, a);
    } else {
      CloseLists(cfg, s.pool, ce, s'.clock, s'.pool, a);
    }
  }

  lemma DialFailLists(cfg: Config, s: State, q: nat, s': State, a: string)
    requires DialFailStep(cfg, s, q, s') && Known(s.pool.ups, s.queries[q].addr)
    ensures a in s'.pool.cache <==> a in s.pool.cache
    ensures ListAfter(s, DialFail(q), s', a, Idle(s.pool.cache, a), Idle(s'.pool.cache, a))
  {
    hide AddressOf, Known;
    DialFailureLists(cfg, s.pool, s.queries[q].addr, s'.clock, a);
  }

  lemma OtherLists(cfg: Config, s: State, act: Action, s': State, a: string)
    requires Next(cfg, s, act, s') && (act.Acquire? || act.Lookup? || act.DialOk? || act.Exchange? || act.Release?)
    ensures s'.pool == s.pool && !ReturnsTo(s, act, a)
    ensures ListAfter(s, act, s', a, Idle(s.pool.cache, a), Idle(s'.pool.cache, a))
  {
    hide AddressOf;
  }

  /** A step gives a key to the address of the connection it returns, and takes no key away. It
      empties the list of an address that fails, appends the connection it returns, pops the one it
      hands out, and leaves every other list as it is. */
  lemma ListsStep(cfg: Config, s: State, act: Action, s': State, a: string)
    requires Inv(cfg, s) && Next(cfg, s, act, s')
    ensures a in s'.pool.cache <==> a in s.pool.cache || ReturnsTo(s, act, a)
    ensures ListAfter(s, act, s', a, Idle(s.pool.cache, a), Idle(s'.pool.cache, a))
  {
    hide AddressOf, AddStep, CloseStep, Get, ListAfter;
    if TouchedAddress(s, act).Some? {
      AddressesKnown(cfg, s, act);
    }
    match act
    case Take(q) => TakeLists(cfg, s, q, s', a);
    case DialFail(q) => DialFailLists(cfg, s, q, s', a);
    case Return(_) => ReportLists(cfg, s, act, s', a);
    case Close(_) => ReportLists(cfg, s, act, s', a);
    case AsyncClose(_) => ReportLists(cfg, s, act, s', a);
    case _ => OtherLists(cfg, s, act, s', a);
  }

  /** An address has a key exactly when some connection to it was returned before. A purge empties
      its list and leaves the key, so the upstream is a candidate again once it is awake. */
  lemma {:induction false} KeyIffReturned(cfg: Config, tr: seq<State>, acts: seq<Action>, k: nat, a: string)
    requires Run(cfg, tr, acts) && k < |tr|
    ensures a in tr[k].pool.cache <==> exists j :: 0 <= j < k && ReturnsTo(tr[j], acts[j], a)
  {
    hide Inv, ListAfter, Next, ReturnsTo;
    if k > 0 {
      KeyIffReturned(cfg, tr, acts, k - 1, a);
      RunInv(cfg, tr, acts, k - 1);
      assert StepAt(cfg, tr, acts, k - 1);
      ListsStep(cfg, tr[k - 1], acts[k - 1], tr[k], a);
    }
  }

  /** Since step r, nothing has failed at the address of this connection, and it was not handed out. */
  ghost predicate Undisturbed(tr: seq<State>, acts: seq<Action>, r: nat, k: nat, ce: Conn)
    requires k <= |acts| && |tr| == |acts| + 1
  {
    forall j | r < j < k ::
      && Failing(tr[j], acts[j]) != Some(ce.addr)
      && (HandedOut(acts[j], tr[j + 1]).Some? ==> HandedOut(acts[j], tr[j + 1]).value.id != ce.id)
  }

  /** One step of `IdleIff`. */
  lemma IdleKept(s: State, act: Action, s': State, ce: Conn, conns: seq<Conn>, conns': seq<Conn>)
    requires ListAfter(s, act, s', ce.addr, conns, conns') && !Returns(s, act, ce.id)
    requires forall i, j | 0 <= i < j < |conns| :: conns[i].id != conns[j].id
    requires ce in conns && HandedOut(act, s').Some? && HandedOut(act, s').value.id == ce.id ==>
               HandedOut(act, s').value.addr == ce.addr
    ensures ce in conns' <==>
              && ce in conns && Failing(s, act) != Some(ce.addr)
              && (HandedOut(act, s').Some? ==> HandedOut(act, s').value.id != ce.id)
  {
    if HandedOut(act, s').Some? && HandedOut(act, s').value.addr == ce.addr && conns == [HandedOut(act, s').value] + conns' {
      assert forall i | 0 <= i < |conns'| :: conns[i + 1] == conns'[i] && conns'[i].id != conns[0].id;
      assert ce in conns <==> ce == conns[0] || ce in conns';
      if ce in conns && ce.id == conns[0].id {
        assert ce == conns[0];
      }
    }
  }

  lemma IdleDistinct(cfg: Config, tr: seq<State>, acts: seq<Action>, k: nat, a: string)
    requires Run(cfg, tr, acts) && k < |tr|
    ensures var conns := Idle(tr[k].pool.cache, a); forall i, j | 0 <= i < j < |conns| :: conns[i].id != conns[j].id
  {
    hide StepAt;
    var conns := Idle(tr[k].pool.cache, a);
    forall i, j | 0 <= i < j < |conns| ensures conns[i].id != conns[j].id {
      IdleExclusively(cfg, tr, acts, k, a, j);
    }
  }

  /** A connection that is handed out was idle under its own address only. */
  lemma HandedOutFrom(cfg: Config, tr: seq<State>, acts: seq<Action>, k: nat, ce: Conn)
    requires Run(cfg, tr, acts) && k < |acts| && HandedOut(acts[k], tr[k + 1]).Some?
    requires HandedOut(acts[k], tr[k + 1]).value.id == ce.id && ce in Idle(tr[k].pool.cache, ce.addr)
    ensures HandedOut(acts[k], tr[k + 1]).value.addr == ce.addr
  {
    hide StepAt;
    MutexFlagged.HitIsHead(cfg, tr, acts, k, acts[k].q);
    var conns := Idle(tr[k].pool.cache, ce.addr);
    var i :| 0 <= i < |conns| && conns[i] == ce;
    IdleExclusively(cfg, tr, acts, k, HandedOut(acts[k], tr[k + 1]).value.addr, 0);
    assert tr[k].pool.cache[ce.addr][i].id == ce.id;
  }

  lemma IdleStarts(s: State, act: Action, s': State, ce: Conn, conns: seq<Conn>, conns': seq<Conn>)
    requires act.Return? && ReportOf(s, act) == Some(ce) && ListAfter(s, act, s', ce.addr, conns, conns')
    ensures ce in conns'
  {
  }

  lemma UndisturbedOn(tr: seq<State>, acts: seq<Action>, r: nat, k: nat, ce: Conn)
    requires r < k < |acts| && |tr| == |acts| + 1
    ensures Undisturbed(tr, acts, r, k + 1, ce) <==>
              && Undisturbed(tr, acts, r, k, ce) && Failing(tr[k], acts[k]) != Some(ce.addr)
              && (HandedOut(acts[k], tr[k + 1]).Some? ==> HandedOut(acts[k], tr[k + 1]).value.id != ce.id)
  {
    hide Failing, HandedOut;
  }

  /** One step of `IdleIff` in a run. */
  lemma IdleOn(cfg: Config, tr: seq<State>, acts: seq<Action>, k: nat, ce: Conn)
    requires Run(cfg, tr, acts) && k < |acts| && !Returns(tr[k], acts[k], ce.id)
    ensures ce in Idle(tr[k + 1].pool.cache, ce.addr) <==>
              && ce in Idle(tr[k].pool.cache, ce.addr) && Failing(tr[k], acts[k]) != Some(ce.addr)
              && (HandedOut(acts[k], tr[k + 1]).Some? ==> HandedOut(acts[k], tr[k + 1]).value.id != ce.id)
  {
    hide Inv, Next, Failing, ListAfter, Returns;
    var conns, conns' := Idle(tr[k].pool.cache, ce.addr), Idle(tr[k + 1].pool.cache, ce.addr);
    RunInv(cfg, tr, acts, k);
    assert StepAt(cfg, tr, acts, k);
    ListsStep(cfg, tr[k], acts[k], tr[k + 1], ce.addr);
    IdleDistinct(cfg, tr, acts, k, ce.addr);
    if ce in conns && HandedOut(acts[k], tr[k + 1]).Some? && HandedOut(acts[k], tr[k + 1]).value.id == ce.id {
      HandedOutFrom(cfg, tr, acts, k, ce);
    }
    IdleKept(tr[k], acts[k], tr[k + 1], ce, conns, conns');
  }

  /** A connection that was last returned at step r is idle exactly as long as it is not handed
      out and its upstream does not fail. */
  lemma {:induction false} IdleIff(cfg: Config, tr: seq<State>, acts: seq<Action>, r: nat, k: nat, ce: Conn)
    requires Run(cfg, tr, acts) && r < k < |tr| && acts[r].Return? && ReportOf(tr[r], acts[r]) == Some(ce)
    requires forall j | r < j < k :: !Returns(tr[j], acts[j], ce.id)
    ensures ce in Idle(tr[k].pool.cache, ce.addr) <==> Undisturbed(tr, acts, r, k, ce)
    decreases k
  {
    hide Failing, HandedOut, Inv, ListAfter, Next, Returns;
    if r == k - 1 {
      RunInv(cfg, tr, acts, r);
      assert StepAt(cfg, tr, acts, r);
      ListsStep(cfg, tr[r], acts[r], tr[k], ce.addr);
      IdleStarts(tr[r], acts[r], tr[k], ce, Idle(tr[r].pool.cache, ce.addr), Idle(tr[k].pool.cache, ce.addr));
    } else {
      IdleIff(cfg, tr, acts, r, k - 1, ce);
      IdleOn(cfg, tr, acts, k - 1, ce);
      UndisturbedOn(tr, acts, r, k - 1, ce);
    }
  }

  /** The connections that a step hands to goroutines, to be closed: all that were idle at the
      address that fails. */
  lemma PendingStep(cfg: Config, s: State, act: Action, s': State)
    requires Inv(cfg, s) && Next(cfg, s, act, s')
    ensures var rest := if act.AsyncClose? then s.pending[..act.k] + s.pending[act.k + 1..] else s.pending;
            s'.pending == rest + if Failing(s, act).Some? then Idle(s.pool.cache, Failing(s, act).value) else []
  {
    hide AddressOf, AddStep, CloseStep, Get, Inv, Known;
    if TouchedAddress(s, act).Some? {
      AddressesKnown(cfg, s, act);
    }
  }

  // --------------------------------------------------------------- cooldowns

  lemma TouchedWakeup(cfg: Config, s: State, act: Action, now: Time)
    requires TouchedAddress(s, act).Some? && Known(s.pool.ups, TouchedAddress(s, act).value)
    ensures var u := Found(s.pool.ups, TouchedAddress(s, act).value);
            Touched(cfg, s, act, now).wakeup == if Cooled(s, act) == Some(u.ref) then now + cfg.CooldownPeriod() else u.wakeup
    ensures Cooled(s, act).Some? ==> Cooled(s, act).value == Found(s.pool.ups, TouchedAddress(s, act).value).ref
  {
    hide AddressOf;
  }

  /** A failure puts the one record found for its address to cooling for one period from now. No
      other record wakes later or earlier than before, and no other action changes any: the return
      of a good connection leaves its upstream awake. */
  lemma WakeupStep(cfg: Config, s: State, act: Action, s': State, u: Upstream, v: Upstream)
    requires Inv(cfg, s) && Next(cfg, s, act, s') && u in s.pool.ups && v in s'.pool.ups && u.ref == v.ref
    ensures v.wakeup == if Cooled(s, act) == Some(u.ref) then s'.clock + cfg.CooldownPeriod() else u.wakeup
  {
    hide AddressOf, Next, Touched, Found;
    TouchesOne(cfg, s, act, s');
    if TouchedAddress(s, act).Some? {
      var w := Found(s.pool.ups, TouchedAddress(s, act).value);
      TouchedWakeup(cfg, s, act, s'.clock);
      if u.ref == w.ref {
        assert w in s.pool.ups by {
          FoundListed(s.pool.ups, TouchedAddress(s, act).value);
        }
        SameRecord(s.pool.ups, u, w);
      } else {
        SameRecord(s.pool.ups, u, v);
      }
    } else {
      SameRecord(s.pool.ups, u, v);
    }
  }

  lemma FoundListed(ups: seq<Upstream>, addr: string)
    requires Known(ups, addr)
    ensures Found(ups, addr) in ups
  {
  }

  /** Was this record put to cooling by action j, less than a period before t? */
  ghost predicate CooledRecently(cfg: Config, tr: seq<State>, acts: seq<Action>, j: nat, ref: nat, t: Time)
    requires j < |acts| && |tr| == |acts| + 1
  {
    Cooled(tr[j], acts[j]) == Some(ref) && t < tr[j + 1].clock + cfg.CooldownPeriod()
  }

  lemma CoolingFrom(cfg: Config, tr: seq<State>, acts: seq<Action>, j: nat, k: nat, ref: nat, t: Time)
    requires Run(cfg, tr, acts) && j <= k < |acts| && CooledRecently(cfg, tr, acts, j, ref, t)
    ensures t < tr[k + 1].clock + cfg.CooldownPeriod()
  {
    hide StepAt, Cooled;
    RunClock(cfg, tr, acts, j + 1, k + 1);
  }

  /** An upstream is cooling exactly when it failed less than one period ago. */
  lemma {:induction false} CoolingIff(cfg: Config, tr: seq<State>, acts: seq<Action>, k: nat, v: Upstream, t: Time)
    requires Run(cfg, tr, acts) && k < |tr| && v in tr[k].pool.ups && 0 <= t
    ensures v.Cooling(t) <==> exists j :: 0 <= j < k && CooledRecently(cfg, tr, acts, j, v.ref, t)
  {
    hide Inv, Next, Cooled;
    if k > 0 {
      var u := Predecessor(cfg, tr, acts, k - 1, v);
      CoolingIff(cfg, tr, acts, k - 1, u, t);
      RunInv(cfg, tr, acts, k - 1);
      assert StepAt(cfg, tr, acts, k - 1);
      WakeupStep(cfg, tr[k - 1], acts[k - 1], tr[k], u, v);
      if j :| 0 <= j < k - 1 && CooledRecently(cfg, tr, acts, j, v.ref, t) {
        CoolingFrom(cfg, tr, acts, j, k - 1, v.ref, t);
      }
      assert v.Cooling(t) <==> CooledRecently(cfg, tr, acts, k - 1, v.ref, t)
                               || (Cooled(tr[k - 1], acts[k - 1]) != Some(v.ref) && u.Cooling(t));
    }
  }

  // ------------------------------------------------- the life of a connection

  predicate Holding(s: State, q: nat, id: nat) {
    q in s.queries && s.queries[q].HasConn() && s.queries[q].ce.id == id
  }

  /** How long the dial or exchange of connection `id` took that this action books. */
  function Duration(s: State, act: Action, id: nat): Option<nat> {
    match act
    case DialOk(_, rtt) => if |s.dialed| == id then Some(rtt) else None
    case Exchange(q, rtt, _) => if Holding(s, q, id) then Some(rtt) else None
    case _ => None
  }

  /** Did an exchange on connection `id` fail? */
  predicate FailedOn(s: State, act: Action, id: nat) {
    act.Exchange? && !act.ok && Holding(s, act.q, id)
  }

  /** The durations of its dial and exchanges before state k. */
  function Durations(tr: seq<State>, acts: seq<Action>, k: nat, id: nat): seq<nat>
    requires k <= |acts| <= |tr|
  {
    if k == 0 then []
    else
      match Duration(tr[k - 1], acts[k - 1], id)
      case Some(rtt) => Durations(tr, acts, k - 1, id) + [rtt]
      case None => Durations(tr, acts, k - 1, id)
  }

  ghost predicate EverFailed(tr: seq<State>, acts: seq<Action>, k: nat, id: nat)
    requires k <= |acts| <= |tr|
  {
    exists j :: 0 <= j < k && FailedOn(tr[j], acts[j], id)
  }

  ghost predicate TooLong(cfg: Config, rtts: seq<nat>) {
    exists i :: 0 <= i < |rtts| && rtts[i] > cfg.RttLimit() * MILLISECOND
  }

  /** The counters of a connection are the sum and the number of the durations, and it is flagged
      exactly when one was too long or an exchange failed. */
  ghost predicate Chronicled(cfg: Config, ce: Conn, rtts: seq<nat>, failed: bool) {
    ce.totalRtt == Sum(rtts) && ce.exchanges == |rtts| > 0 && (ce.err <==> TooLong(cfg, rtts) || failed)
  }

  /** Idle, waiting to be closed, or held. */
  ghost predicate Present(s: State, ce: Conn) {
    || (exists a :: a in s.pool.cache && ce in s.pool.cache[a])
    || ce in s.pending
    || exists q :: q in s.queries && s.queries[q].HasConn() && s.queries[q].ce == ce
  }

  lemma TooLongAppended(cfg: Config, rtts: seq<nat>, rtt: nat)
    ensures TooLong(cfg, rtts + [rtt]) <==> TooLong(cfg, rtts) || rtt > cfg.RttLimit() * MILLISECOND
    ensures Sum(rtts + [rtt]) == Sum(rtts) + rtt
  {
    var all := rtts + [rtt];
    assert all[..|all| - 1] == rtts;
    assert all[|rtts|] == rtt;
    if i :| 0 <= i < |rtts| && rtts[i] > cfg.RttLimit() * MILLISECOND {
      assert all[i] == rtts[i];
    }
    if i :| 0 <= i < |all| && all[i] > cfg.RttLimit() * MILLISECOND {
      assert i < |rtts| ==> all[i] == rtts[i];
    }
  }

  /** An exchange books its duration on the connection, whatever its outcome; an answer does not
      clear the flag, and a failure sets it. */
  lemma ExchangeBooks(cfg: Config, s: State, q: nat, rtt: nat, ok: bool, s': State)
    requires Next(cfg, s, Exchange(q, rtt, ok), s')
    ensures q in s.queries && s.queries[q].Exchanging? && q in s'.queries && s'.queries[q].HasConn()
    ensures var c, c' := s.queries[q].ce, s'.queries[q].ce;
            && c'.id == c.id && c'.addr == c.addr
            && c'.totalRtt == c.totalRtt + rtt && c'.exchanges == c.exchanges + 1
            && (c'.err <==> c.err || !ok || rtt > cfg.RttLimit() * MILLISECOND)
  {
  }

  lemma ExchangeChronicled(cfg: Config, c: Conn, c': Conn, rtts: seq<nat>, failed: bool, rtt: nat, ok: bool)
    requires Chronicled(cfg, c, rtts, failed)
    requires c'.totalRtt == c.totalRtt + rtt && c'.exchanges == c.exchanges + 1
    requires c'.err <==> c.err || !ok || rtt > cfg.RttLimit() * MILLISECOND
    ensures Chronicled(cfg, c', rtts + [rtt], failed || !ok)
  {
    TooLongAppended(cfg, rtts, rtt);
  }

  lemma PresentDialed(cfg: Config, s: State, ce: Conn)
    requires WellPlaced(cfg, s) && Present(s, ce)
    ensures ce.id < |s.dialed|
  {
    if a :| a in s.pool.cache && ce in s.pool.cache[a] {
      var i :| 0 <= i < |s.pool.cache[a]| && s.pool.cache[a][i] == ce;
      assert Genuine(cfg, s.dialed, Addresses(s.pool.ups), s.pool.cache[a][i]);
    } else if ce in s.pending {
      var i :| 0 <= i < |s.pending| && s.pending[i] == ce;
    } else {
      var q :| q in s.queries && s.queries[q].HasConn() && s.queries[q].ce == ce;
      assert PhasePlaced(cfg, s.dialed, Addresses(s.pool.ups), s.queries[q]);
    }
  }

  /** A connection that a query holds is nowhere else. */
  lemma HeldOnly(cfg: Config, s: State, q: nat, ce: Conn)
    requires Inv(cfg, s) && q in s.queries && s.queries[q].HasConn() && Present(s, ce) && ce.id == s.queries[q].ce.id
    ensures ce == s.queries[q].ce
  {
    HeldElsewhere(cfg, s, q);
    PresentDialed(cfg, s, ce);
    assert Places(s, ce.id) == 1;
    var r :| r in s.queries && s.queries[r].HasConn() && s.queries[r].ce == ce;
    if r != q {
      HeldTwice(s.queries, q, r, ce.id);
    }
  }

  lemma HeldBefore(cfg: Config, s: State, act: Action, s': State, ce: Conn, q: nat)
    requires Next(cfg, s, act, s') && !act.DialOk? && !act.Exchange?
    requires q in s'.queries && s'.queries[q].HasConn() && s'.queries[q].ce == ce
    ensures Present(s, ce)
  {
    hide AddressOf, Choose, AddStep, CloseStep;
    if act.Take? && act.q == q {
      var a := Choose(s.pool, s'.clock).Address();
      assert ce == Idle(s.pool.cache, a)[0];
    } else {
      assert q in s.queries && s.queries[q].HasConn() && s.queries[q].ce == ce;
    }
  }

  lemma IdleBefore(s: State, act: Action, s': State, ce: Conn, a: string)
    requires ListAfter(s, act, s', a, Idle(s.pool.cache, a), Idle(s'.pool.cache, a))
    requires ce in Idle(s'.pool.cache, a)
    ensures Present(s, ce)
  {
    hide AddressOf;
    if ReturnsTo(s, act, a) && ce == ReportOf(s, act).value {
      assert act.q in s.queries && s.queries[act.q].HasConn() && s.queries[act.q].ce == ce;
    } else {
      assert ce in Idle(s.pool.cache, a);
    }
  }

  lemma PendingBefore(cfg: Config, s: State, act: Action, s': State, ce: Conn)
    requires Inv(cfg, s) && Next(cfg, s, act, s') && ce in s'.pending
    ensures Present(s, ce)
  {
    hide Inv, Next;
    PendingStep(cfg, s, act, s');
    if ce !in s.pending {
      assert ce in Idle(s.pool.cache, Failing(s, act).value);
    }
  }

  /** A connection after a step that books nothing was there before. */
  lemma PresentBefore(cfg: Config, s: State, act: Action, s': State, ce: Conn)
    requires Inv(cfg, s) && Next(cfg, s, act, s') && Present(s', ce) && !act.DialOk? && !act.Exchange?
    ensures Present(s, ce)
  {
    hide Inv, Next, ListAfter;
    if a :| a in s'.pool.cache && ce in s'.pool.cache[a] {
      ListsStep(cfg, s, act, s', a);
      IdleBefore(s, act, s', ce, a);
    } else if ce in s'.pending {
      PendingBefore(cfg, s, act, s', ce);
    } else {
      var q :| q in s'.queries && s'.queries[q].HasConn() && s'.queries[q].ce == ce;
      HeldBefore(cfg, s, act, s', ce, q);
    }
  }

  /** The same for a step that changes only what query q holds. */
  lemma PresentElsewhere(s: State, s': State, q: nat, ce: Conn)
    requires s'.pool.cache == s.pool.cache && s'.pending == s.pending && q in s.queries && q in s'.queries
    requires s'.queries == s.queries[q := s'.queries[q]] && Present(s', ce)
    requires !(s'.queries[q].HasConn() && s'.queries[q].ce == ce)
    ensures Present(s, ce)
  {
    if r :| r in s'.queries && s'.queries[r].HasConn() && s'.queries[r].ce == ce {
      assert r in s.queries && s.queries[r].HasConn() && s.queries[r].ce == ce;
    }
  }

  /** Nothing is booked on a connection before it is dialed. */
  lemma {:induction false} NothingBooked(cfg: Config, tr: seq<State>, acts: seq<Action>, k: nat, id: nat)
    requires Run(cfg, tr, acts) && k < |tr| && id >= |tr[k].dialed|
    ensures Durations(tr, acts, k, id) == [] && !EverFailed(tr, acts, k, id)
  {
    hide EverFailed, Inv, Next;
    if k > 0 {
      RunInv(cfg, tr, acts, k - 1);
      assert StepAt(cfg, tr, acts, k - 1);
      DialedGrows(cfg, tr[k - 1], acts[k - 1], tr[k]);
      NothingBooked(cfg, tr, acts, k - 1, id);
      if acts[k - 1].Exchange? && Holding(tr[k - 1], acts[k - 1].q, id) {
        HeldDialed(cfg, tr[k - 1], acts[k - 1].q);
      }
      EverFailedStep(tr, acts, k, id);
    } else {
      assert !EverFailed(tr, acts, k, id) by {
        NeverBefore(tr, acts, id);
      }
    }
  }

  lemma NeverBefore(tr: seq<State>, acts: seq<Action>, id: nat)
    requires |acts| <= |tr|
    ensures !EverFailed(tr, acts, 0, id)
  {
  }

  lemma DialedGrows(cfg: Config, s: State, act: Action, s': State)
    requires Next(cfg, s, act, s')
    ensures |s'.dialed| == |s.dialed| + if act.DialOk? then 1 else 0
  {
    hide AddressOf, Choose, AddStep, CloseStep, DialFailure;
  }

  lemma HeldDialed(cfg: Config, s: State, q: nat)
    requires Inv(cfg, s) && q in s.queries && s.queries[q].HasConn()
    ensures s.queries[q].ce.id < |s.dialed|
  {
    assert PhasePlaced(cfg, s.dialed, Addresses(s.pool.ups), s.queries[q]);
  }

  lemma EverFailedStep(tr: seq<State>, acts: seq<Action>, k: nat, id: nat)
    requires 0 < k <= |acts| <= |tr|
    ensures EverFailed(tr, acts, k, id) <==> EverFailed(tr, acts, k - 1, id) || FailedOn(tr[k - 1], acts[k - 1], id)
  {
    hide FailedOn;
  }

  /** A connection present after a dial is the new one, or was there before. */
  lemma DialPresent(cfg: Config, s: State, q: nat, rtt: nat, s': State, ce: Conn)
    requires Inv(cfg, s) && Next(cfg, s, DialOk(q, rtt), s') && Present(s', ce)
    ensures if ce.id == |s.dialed| then ce == NewConn(cfg, ce.id, ce.addr, rtt) else Present(s, ce)
  {
    hide AddressOf;
    if ce != s'.queries[q].ce {
      PresentElsewhere(s, s', q, ce);
      PresentDialed(cfg, s, ce);
    }
  }

  /** A connection present after an exchange is the one of the exchange, or was there before. */
  lemma ExchangePresent(cfg: Config, s: State, q: nat, rtt: nat, ok: bool, s': State, ce: Conn)
    requires Inv(cfg, s) && Next(cfg, s, Exchange(q, rtt, ok), s') && Inv(cfg, s') && Present(s', ce)
    ensures if Holding(s, q, ce.id) then q in s'.queries && s'.queries[q].HasConn() && ce == s'.queries[q].ce else Present(s, ce)
  {
    hide AddressOf, Inv;
    ExchangeBooks(cfg, s, q, rtt, ok, s');
    if Holding(s, q, ce.id) {
      HeldOnly(cfg, s', q, ce);
    } else {
      PresentElsewhere(s, s', q, ce);
    }
  }

  lemma NewChronicled(cfg: Config, id: nat, addr: string, rtt: nat)
    ensures Chronicled(cfg, NewConn(cfg, id, addr, rtt), [] + [rtt], false)
  {
    TooLongAppended(cfg, [], rtt);
  }

  /** Whatever became of a connection, as long as it is not closed its counters are the sum and the
      number of the durations of its dial and exchanges, and it is flagged exactly when one of them
      was longer than the timeout or an exchange failed. */
  lemma {:induction false} ConnHistory(cfg: Config, tr: seq<State>, acts: seq<Action>, k: nat, ce: Conn)
    requires Run(cfg, tr, acts) && k < |tr| && Present(tr[k], ce)
    ensures Chronicled(cfg, ce, Durations(tr, acts, k, ce.id), EverFailed(tr, acts, k, ce.id))
  {
    hide Inv, Next, Present, EverFailed, Chronicled;
    if k == 0 {
      NonePresent(cfg, tr[0], ce);
    } else {
      var s, s' := tr[k - 1], tr[k];
      RunInv(cfg, tr, acts, k - 1);
      RunInv(cfg, tr, acts, k);
      assert StepAt(cfg, tr, acts, k - 1);
      EverFailedStep(tr, acts, k, ce.id);
      match acts[k - 1]
      case DialOk(q, rtt) =>
        DialPresent(cfg, s, q, rtt, s', ce);
        if ce.id == |s.dialed| {
          NothingBooked(cfg, tr, acts, k - 1, ce.id);
          NewChronicled(cfg, ce.id, ce.addr, rtt);
        } else {
          ConnHistory(cfg, tr, acts, k - 1, ce);
        }
      case Exchange(q, rtt, ok) =>
        ExchangePresent(cfg, s, q, rtt, ok, s', ce);
        if Holding(s, q, ce.id) {
          ExchangeBooks(cfg, s, q, rtt, ok, s');
          HeldPresent(s, q);
          ConnHistory(cfg, tr, acts, k - 1, s.queries[q].ce);
          ExchangeChronicled(cfg, s.queries[q].ce, ce, Durations(tr, acts, k - 1, ce.id),
                             EverFailed(tr, acts, k - 1, ce.id), rtt, ok);
        } else {
          ConnHistory(cfg, tr, acts, k - 1, ce);
        }
      case _ =>
        PresentBefore(cfg, s, acts[k - 1], s', ce);
        ConnHistory(cfg, tr, acts, k - 1, ce);
    }
  }

  lemma NonePresent(cfg: Config, s: State, ce: Conn)
    requires Init(cfg, s)
    ensures !Present(s, ce)
  {
  }

  lemma HeldPresent(s: State, q: nat)
    requires q in s.queries && s.queries[q].HasConn()
    ensures Present(s, s.queries[q].ce)
  {
  }

  /** This is the mean of these durations in milliseconds: times their number, it is the total, less
      what is left of the last millisecond. */
  ghost predicate Mean(weight: real, rtts: seq<nat>) {
    var total := 1_000_000.0 * (weight * |rtts| as real);
    total <= Sum(rtts) as real < total + 1_000_000.0
  }

  lemma ChronicledMean(cfg: Config, ce: Conn, rtts: seq<nat>, failed: bool)
    requires Chronicled(cfg, ce, rtts, failed)
    ensures Mean(ce.Weight(), rtts)
  {
    hide Conn.Weight, Sum, TooLong;
    WeightIsMean(ce);
  }

  /** The weight that a reported connection gives to its upstream is the mean duration of its dial
      and exchanges. */
  lemma ReportHistory(cfg: Config, tr: seq<State>, acts: seq<Action>, k: nat)
    requires Run(cfg, tr, acts) && k < |acts| && ReportOf(tr[k], acts[k]).Some?
    ensures var ce := ReportOf(tr[k], acts[k]).value; var rtts := Durations(tr, acts, k, ce.id);
            Chronicled(cfg, ce, rtts, EverFailed(tr, acts, k, ce.id)) && Mean(ce.Weight(), rtts)
  {
    hide Chronicled, EverFailed, Mean, StepAt;
    var ce := ReportOf(tr[k], acts[k]).value;
    if !acts[k].AsyncClose? {
      HeldPresent(tr[k], acts[k].q);
    }
    ConnHistory(cfg, tr, acts, k, ce);
    ChronicledMean(cfg, ce, Durations(tr, acts, k, ce.id), EverFailed(tr, acts, k, ce.id));
  }
}
