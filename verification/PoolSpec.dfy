/** The connection pool as values: upstream records, connection entries, and what each
    lock-protected pool operation does to them. `ConnPool` implements these operations with
    loops over mutable objects; `MutexSystem` interleaves them. */
module PoolSpec {
  import Text

  /** Nanoseconds, as in Go's time.Duration. The zero time.Time is 0. */
  type Time = int

  datatype Option<+T> = None | Some(value: T)

  const MILLISECOND: nat := 1_000_000
  const DEFAULT_PORT: int := 853

  /** Durations are in milliseconds, 0 means "use the default". */
  datatype Config = Config(timeout: nat, cooldown: nat, retries: nat, concurrency: nat) {
    function RttLimit(): nat {
      if timeout == 0 then 500 else timeout
    }

    function CooldownPeriod(): nat {
      (if cooldown == 0 then 500 else cooldown) * MILLISECOND
    }
  }

  /** Proofs that do not look into the text of an address hide this function. */
  function AddressOf(name: string, port: int): string {
    Text.Key(name, if port == 0 then DEFAULT_PORT else port)
  }

  /** The timeout and the cooldown in nanoseconds: as configured in milliseconds, 500 ms for 0. */
  lemma Periods(cfg: Config)
    ensures cfg.RttLimit() * MILLISECOND == if cfg.timeout == 0 then 500_000_000 else cfg.timeout * 1_000_000
    ensures cfg.CooldownPeriod() == if cfg.cooldown == 0 then 500_000_000 else cfg.cooldown * 1_000_000
  {
  }

  /** Addresses distinguish upstreams by name and effective port; port 0 is port 853. */
  lemma AddressFaithful(n1: string, p1: int, n2: string, p2: int)
    ensures AddressOf(n1, p1) == AddressOf(n2, p2)
       <==> n1 == n2 && (p1 == p2 || (p1 in {0, 853} && p2 in {0, 853}))
  {
    Text.KeyInjective(n1, if p1 == 0 then DEFAULT_PORT else p1, n2, if p2 == 0 then DEFAULT_PORT else p2);
  }

  /** An upstream record. `ref` stands for the identity of the Go pointer. */
  datatype Upstream = Upstream(ref: nat, name: string, port: int, weight: real, wakeup: Time) {
    function Address(): string {
      AddressOf(name, port)
    }

    predicate Cooling(now: Time) {
      wakeup > now
    }

    /** Comparison with the zero value Upstream{}. */
    predicate IsZero() {
      name == "" && port == 0 && weight == 0.0 && wakeup == 0
    }

    /** Everything that no pool operation changes. */
    function Identity(): (nat, string, int) {
      (ref, name, port)
    }
  }

  /** A connection entry. `id` numbers successful dials, it stands for the socket. */
  datatype Conn = Conn(id: nat, addr: string, totalRtt: nat, exchanges: nat, err: bool) {
    function Weight(): real {
      if totalRtt == 0 || exchanges == 0 then 0.0
      else (totalRtt / MILLISECOND) as real / exchanges as real
    }

    function AddExchange(cfg: Config, rtt: nat): Conn {
      this.(totalRtt := totalRtt + rtt, exchanges := exchanges + 1,
            err := err || rtt > cfg.RttLimit() * MILLISECOND)
    }

    /** What AddExchange keeps: an unerrored connection never had a slow exchange. */
    predicate Honest(cfg: Config) {
      !err ==> totalRtt <= exchanges * (cfg.RttLimit() * MILLISECOND)
    }
  }

  function NewConn(cfg: Config, id: nat, addr: string, dialRtt: nat): Conn {
    Conn(id, addr, 0, 0, false).AddExchange(cfg, dialRtt)
  }

  datatype Pool = Pool(ups: seq<Upstream>, cache: map<string, seq<Conn>>)

  function Idle<T>(cache: map<string, seq<T>>, addr: string): seq<T> {
    if addr in cache then cache[addr] else []
  }

  function Addresses(ups: seq<Upstream>): set<string> {
    set u | u in ups :: u.Address()
  }

  // ---------------------------------------------------------------- weights

  lemma AddExchangeHonest(cfg: Config, ce: Conn, rtt: nat)
    requires ce.Honest(cfg)
    ensures ce.AddExchange(cfg, rtt).Honest(cfg)
    ensures ce.err ==> ce.AddExchange(cfg, rtt).err
  {
    var limit := cfg.RttLimit() * MILLISECOND;
    assert (ce.exchanges + 1) * limit == ce.exchanges * limit + limit;
  }

  /** The fold of AddExchange over the round trip times of a connection's life. */
  function Exchanges(cfg: Config, ce: Conn, rtts: seq<nat>): Conn {
    if rtts == [] then ce
    else Exchanges(cfg, ce, rtts[..|rtts| - 1]).AddExchange(cfg, rtts[|rtts| - 1])
  }

  function Sum(rtts: seq<nat>): nat {
    if rtts == [] then 0 else Sum(rtts[..|rtts| - 1]) + rtts[|rtts| - 1]
  }

  lemma {:induction false} ExchangesTotal(cfg: Config, id: nat, addr: string, rtts: seq<nat>)
    ensures var ce := Exchanges(cfg, Conn(id, addr, 0, 0, false), rtts);
            && ce.totalRtt == Sum(rtts) && ce.exchanges == |rtts|
            && (ce.err <==> exists k :: 0 <= k < |rtts| && rtts[k] > cfg.RttLimit() * MILLISECOND)
            && ce.Honest(cfg)
  {
    if rtts != [] {
      var n := |rtts| - 1;
      ExchangesTotal(cfg, id, addr, rtts[..n]);
      AddExchangeHonest(cfg, Exchanges(cfg, Conn(id, addr, 0, 0, false), rtts[..n]), rtts[n]);
      assert forall k :: 0 <= k < n ==> rtts[..n][k] == rtts[k];
    }
  }

  lemma QuotientTimes(total: int, count: nat)
    requires count > 0
    ensures (total as real / count as real) * count as real == total as real
  {
  }

  /** The weight is the mean duration of an exchange in milliseconds: times their number, it is
      the total, less what is left of the last millisecond. */
  lemma WeightIsMean(ce: Conn)
    requires ce.exchanges > 0
    ensures 1_000_000.0 * (ce.Weight() * ce.exchanges as real) <= ce.totalRtt as real
    ensures ce.totalRtt as real < 1_000_000.0 * (ce.Weight() * ce.exchanges as real) + 1_000_000.0
    ensures var ms := ce.Weight() * ce.exchanges as real; ms == ms.Floor as real
  {
    var ms: nat := ce.totalRtt / MILLISECOND;
    QuotientTimes(ms, ce.exchanges);
    assert ce.Weight() * ce.exchanges as real == ms as real;
    assert MILLISECOND * ms <= ce.totalRtt < MILLISECOND * ms + MILLISECOND;
  }

  lemma QuotientBound(total: nat, count: nat, limit: nat)
    requires count > 0 && total <= count * limit
    ensures total as real / count as real <= limit as real
  {
    assert (count * limit) as real == count as real * limit as real;
    assert total as real <= limit as real * count as real;
    var q := total as real / count as real;
    assert q * count as real == total as real;
    if q > limit as real {
      assert q * count as real > limit as real * count as real;
    }
  }

  /** An honest unerrored connection weighs at most the RTT timeout. */
  lemma WeightBound(cfg: Config, ce: Conn)
    requires ce.Honest(cfg) && !ce.err
    ensures 0.0 <= ce.Weight() <= cfg.RttLimit() as real
  {
    if ce.totalRtt != 0 && ce.exchanges != 0 {
      var limit := cfg.RttLimit();
      assert ce.exchanges * (limit * MILLISECOND) == (ce.exchanges * limit) * MILLISECOND;
      assert ce.totalRtt / MILLISECOND <= ce.exchanges * limit;
      QuotientBound(ce.totalRtt / MILLISECOND, ce.exchanges, limit);
    }
  }

  // -------------------------------------------------------------- selection

  ghost predicate Sorted(ups: seq<Upstream>) {
    forall i, j :: 0 <= i < j < |ups| ==> ups[i].weight <= ups[j].weight
  }

  /** A non-cooling upstream whose address has a key in the map... */
  predicate Open(p: Pool, now: Time, u: Upstream) {
    u.Address() in p.cache && !u.Cooling(now)
  }

  /** ...and one that also has an idle connection. */
  predicate Ready(p: Pool, now: Time, u: Upstream) {
    Open(p, now, u) && |p.cache[u.Address()]| > 0
  }

  function FirstOpen(p: Pool, now: Time, i: nat): (r: nat)
    requires i <= |p.ups|
    ensures i <= r <= |p.ups|
    ensures r < |p.ups| ==> Open(p, now, p.ups[r])
    ensures forall k :: i <= k < r ==> !Open(p, now, p.ups[k])
    decreases |p.ups| - i
  {
    if i == |p.ups| || Open(p, now, p.ups[i]) then i else FirstOpen(p, now, i + 1)
  }

  function FirstReady(p: Pool, now: Time, i: nat): (r: nat)
    requires i <= |p.ups|
    ensures i <= r <= |p.ups|
    ensures r < |p.ups| ==> Ready(p, now, p.ups[r])
    ensures forall k :: i <= k < r ==> !Ready(p, now, p.ups[k])
    decreases |p.ups| - i
  {
    if i == |p.ups| || Ready(p, now, p.ups[i]) then i else FirstReady(p, now, i + 1)
  }

  function Choose(p: Pool, now: Time): Upstream
    requires |p.ups| > 0
  {
    var ready, open := FirstReady(p, now, 0), FirstOpen(p, now, 0);
    if ready < |p.ups| then p.ups[ready]
    else if open < |p.ups| then p.ups[open]
    else p.ups[0]
  }

  datatype GetOutcome = Hit(ce: Conn) | Miss(up: Upstream)

  function Get(p: Pool, now: Time): (GetOutcome, Pool)
    requires |p.ups| > 0
  {
    var u := Choose(p, now);
    var conns := Idle(p.cache, u.Address());
    if |conns| > 0 then (Hit(conns[0]), p.(cache := p.cache[u.Address() := conns[1..]]))
    else (Miss(u), p)
  }

  ghost predicate AnyReady(p: Pool, now: Time) {
    exists v :: v in p.ups && Ready(p, now, v)
  }

  ghost predicate AnyOpen(p: Pool, now: Time) {
    exists v :: v in p.ups && Open(p, now, v)
  }

  ghost predicate LightestReady(p: Pool, now: Time, u: Upstream) {
    u in p.ups && Ready(p, now, u) && forall v | v in p.ups && Ready(p, now, v) :: u.weight <= v.weight
  }

  ghost predicate LightestOpen(p: Pool, now: Time, u: Upstream) {
    u in p.ups && Open(p, now, u) && forall v | v in p.ups && Open(p, now, v) :: u.weight <= v.weight
  }

  lemma ReadyAfter(p: Pool, now: Time, v: Upstream)
    requires Sorted(p.ups) && v in p.ups && Ready(p, now, v)
    ensures var r := FirstReady(p, now, 0); r < |p.ups| && p.ups[r].weight <= v.weight
  {
    var k :| 0 <= k < |p.ups| && p.ups[k] == v;
    assert FirstReady(p, now, 0) <= k;
  }

  lemma FirstReadyLightest(p: Pool, now: Time)
    requires Sorted(p.ups) && AnyReady(p, now)
    ensures var r := FirstReady(p, now, 0); r < |p.ups| && LightestReady(p, now, p.ups[r])
  {
    var v :| v in p.ups && Ready(p, now, v);
    ReadyAfter(p, now, v);
    forall w | w in p.ups && Ready(p, now, w) ensures p.ups[FirstReady(p, now, 0)].weight <= w.weight {
      ReadyAfter(p, now, w);
    }
  }

  lemma OpenAfter(p: Pool, now: Time, v: Upstream)
    requires Sorted(p.ups) && v in p.ups && Open(p, now, v)
    ensures var r := FirstOpen(p, now, 0); r < |p.ups| && p.ups[r].weight <= v.weight
  {
    var k :| 0 <= k < |p.ups| && p.ups[k] == v;
    assert FirstOpen(p, now, 0) <= k;
  }

  lemma FirstOpenLightest(p: Pool, now: Time)
    requires Sorted(p.ups) && AnyOpen(p, now)
    ensures var r := FirstOpen(p, now, 0); r < |p.ups| && LightestOpen(p, now, p.ups[r])
  {
    var v :| v in p.ups && Open(p, now, v);
    OpenAfter(p, now, v);
    forall w | w in p.ups && Open(p, now, w) ensures p.ups[FirstOpen(p, now, 0)].weight <= w.weight {
      OpenAfter(p, now, w);
    }
  }

  lemma ChooseTier(p: Pool, now: Time)
    requires |p.ups| > 0 && Sorted(p.ups)
    ensures AnyReady(p, now) ==> LightestReady(p, now, Choose(p, now))
    ensures !AnyReady(p, now) && AnyOpen(p, now) ==> LightestOpen(p, now, Choose(p, now))
    ensures !AnyOpen(p, now) ==> Choose(p, now) == p.ups[0]
  {
    if AnyReady(p, now) {
      FirstReadyLightest(p, now);
    } else if AnyOpen(p, now) {
      FirstOpenLightest(p, now);
    }
  }

  /** Which record is chosen, also among equal weights: the first in the list that has a key, is awake
      and has an idle connection; failing that the first that has a key and is awake; failing that
      the head. */
  lemma ChooseIs(p: Pool, now: Time, i: nat)
    requires i < |p.ups|
    requires var key := (u: Upstream) => u.Address() in p.cache && u.wakeup <= now;
             var idle := (u: Upstream) => key(u) && |p.cache[u.Address()]| > 0;
             if exists k :: 0 <= k < |p.ups| && idle(p.ups[k]) then idle(p.ups[i]) && forall k :: 0 <= k < i ==> !idle(p.ups[k])
             else if exists k :: 0 <= k < |p.ups| && key(p.ups[k]) then key(p.ups[i]) && forall k :: 0 <= k < i ==> !key(p.ups[k])
             else i == 0
    ensures Choose(p, now) == p.ups[i]
  {
    hide AddressOf;
    var ready, open := FirstReady(p, now, 0), FirstOpen(p, now, 0);
    if k :| 0 <= k < |p.ups| && Ready(p, now, p.ups[k]) {
      assert ready == i;
    } else if k :| 0 <= k < |p.ups| && Open(p, now, p.ups[k]) {
      assert open == i;
    }
  }

  /** Selection and Get together, on a list in weight order. While some non-cooling upstream
      has an idle connection, Get pops the oldest one of a lightest such upstream. Failing
      that it asks for a dial to a lightest non-cooling upstream with a key in the map.
      Failing that it falls back on the lightest record of all, and only then can a cooling
      upstream be chosen. */
  lemma SelectionTiers(p: Pool, now: Time, u: Upstream, out: GetOutcome, p': Pool)
    requires |p.ups| > 0 && Sorted(p.ups)
    requires u == Choose(p, now) && (out, p') == Get(p, now)
    ensures u in p.ups
    ensures AnyReady(p, now) ==>
              && LightestReady(p, now, u)
              && out == Hit(p.cache[u.Address()][0])
              && p' == p.(cache := p.cache[u.Address() := p.cache[u.Address()][1..]])
    ensures !AnyReady(p, now) && AnyOpen(p, now) ==>
              LightestOpen(p, now, u) && out == Miss(u) && p' == p
    ensures !AnyOpen(p, now) ==>
              && (forall v | v in p.ups :: u.weight <= v.weight)
              && out == if |Idle(p.cache, u.Address())| > 0 then Hit(p.cache[u.Address()][0]) else Miss(u)
    ensures u.Cooling(now) ==> !AnyOpen(p, now)
  {
    ChooseTier(p, now);
    assert AnyReady(p, now) ==> AnyOpen(p, now) by {
      if v :| v in p.ups && Ready(p, now, v) {
        assert Open(p, now, v);
      }
    }
    if !AnyReady(p, now) && AnyOpen(p, now) {
      assert !Ready(p, now, u);
    }
    assert u in p.ups;
  }

  // ------------------------- what the selection does not do, and exactly when

  ghost predicate AnyAwake(p: Pool, now: Time) {
    exists v :: v in p.ups && !v.Cooling(now)
  }

  ghost predicate LightestAwake(p: Pool, now: Time, u: Upstream) {
    u in p.ups && !u.Cooling(now) && forall v | v in p.ups && !v.Cooling(now) :: u.weight <= v.weight
  }

  /** Cooling upstreams are meant to be ignored while another is awake. One is chosen all the
      same exactly when it heads the list and no awake upstream has a key in the map. */
  lemma CoolingChosenIff(p: Pool, now: Time)
    requires |p.ups| > 0 && Sorted(p.ups) && AnyAwake(p, now)
    ensures Choose(p, now).Cooling(now) <==> !AnyOpen(p, now) && p.ups[0].Cooling(now)
  {
    ChooseTier(p, now);
    if AnyReady(p, now) {
      assert Open(p, now, Choose(p, now));
    }
  }

  /** Without an idle connection, a lightest awake upstream is meant to be dialed. It is exactly
      when one of those has a key in the map, or no awake upstream has one and the head of the
      list is awake. */
  lemma LightestChosenIff(p: Pool, now: Time)
    requires |p.ups| > 0 && Sorted(p.ups) && AnyAwake(p, now) && !AnyReady(p, now)
    ensures LightestAwake(p, now, Choose(p, now)) <==>
              || (exists v :: LightestAwake(p, now, v) && Open(p, now, v))
              || (!AnyOpen(p, now) && !p.ups[0].Cooling(now))
  {
    ChooseTier(p, now);
    HeadIsLightest(p);
    var u := Choose(p, now);
    if AnyOpen(p, now) {
      assert Open(p, now, u);
      if v :| LightestAwake(p, now, v) && Open(p, now, v) {
        assert u.weight <= v.weight;
      }
    }
  }

  lemma HeadIsLightest(p: Pool)
    requires |p.ups| > 0 && Sorted(p.ups)
    ensures p.ups[0] in p.ups && forall v | v in p.ups :: p.ups[0].weight <= v.weight
  {
    forall v | v in p.ups ensures p.ups[0].weight <= v.weight {
      var k :| 0 <= k < |p.ups| && p.ups[k] == v;
      assert k == 0 || p.ups[0].weight <= p.ups[k].weight;
    }
  }

  /** Both fail at once for two upstreams that were never used, the first of them cooling. */
  lemma CoolingChosen(now: Time) returns (p: Pool)
    ensures |p.ups| == 2 && Sorted(p.ups) && p.cache == map[]
    ensures p.ups[0].Cooling(now) && LightestAwake(p, now, p.ups[1]) && !AnyReady(p, now)
    ensures Choose(p, now) == p.ups[0]
  {
    p := Pool([Upstream(0, "a", 0, 0.0, now + 1), Upstream(1, "b", 0, 0.0, now)], map[]);
    ChooseTier(p, now);
  }

  // ---------------------------------------------------------------- updates

  function FirstThat<T>(s: seq<T>, f: T -> bool, i: nat): (r: nat)
    requires i <= |s|
    ensures i <= r <= |s|
    ensures r < |s| ==> f(s[r])
    ensures forall k :: i <= k < r ==> !f(s[k])
    decreases |s| - i
  {
    if i == |s| || f(s[i]) then i else FirstThat(s, f, i + 1)
  }

  /** Index of the first record with this address, |ups| when there is none. */
  function FirstAt(ups: seq<Upstream>, addr: string): (r: nat)
    ensures r <= |ups|
    ensures r < |ups| ==> ups[r].Address() == addr
    ensures forall k :: 0 <= k < r ==> ups[k].Address() != addr
  {
    var f := (u: Upstream) => u.Address() == addr;
    var r := FirstThat(ups, f, 0);
    assert forall k :: 0 <= k < r ==> !f(ups[k]);
    r
  }

  predicate Known(ups: seq<Upstream>, addr: string) {
    FirstAt(ups, addr) < |ups|
  }

  lemma KnownIffAddress(ups: seq<Upstream>, addr: string)
    ensures Known(ups, addr) <==> addr in Addresses(ups)
  {
  }

  function Weigh(u: Upstream, ce: Conn): Upstream {
    if ce.Weight() != 0.0 then u.(weight := ce.Weight()) else u
  }

  function Cool(cfg: Config, u: Upstream, now: Time): Upstream {
    u.(wakeup := now + cfg.CooldownPeriod())
  }

  /** The record of the reported connection's upstream after the report. */
  function Report(cfg: Config, u: Upstream, ce: Conn, now: Time): Upstream {
    if ce.err then Cool(cfg, Weigh(u, ce), now) else Weigh(u, ce)
  }

  /** sort.Slice promises no stability: the result is sorted and a permutation, no more. */
  ghost predicate SortOf(ups: seq<Upstream>, ups': seq<Upstream>) {
    multiset(ups) == multiset(ups') && Sorted(ups')
  }

  /** updateUpstream on the list of records. */
  ghost predicate Reported(cfg: Config, ups: seq<Upstream>, ce: Conn, now: Time, ups': seq<Upstream>) {
    var i := FirstAt(ups, ce.addr);
    if i == |ups| then ups' == ups
    else SortOf(ups[i := Report(cfg, ups[i], ce, now)], ups')
  }

  function Purge<T>(cache: map<string, seq<T>>, addr: string): map<string, seq<T>> {
    if addr in cache then cache[addr := []] else cache
  }

  /** updateUpstream on the idle lists: a known errored connection purges its address. */
  function ReportedCache(p: Pool, ce: Conn): map<string, seq<Conn>> {
    if Known(p.ups, ce.addr) && ce.err then Purge(p.cache, ce.addr) else p.cache
  }

  /** The connections handed to asynchronous CloseConnection calls by updateUpstream. */
  function Spawned(p: Pool, ce: Conn): seq<Conn> {
    if Known(p.ups, ce.addr) && ce.err then Idle(p.cache, ce.addr) else []
  }

  /** Add: the report, then the append, which happens whatever the report did. */
  ghost predicate AddStep(cfg: Config, p: Pool, ce: Conn, now: Time, p': Pool) {
    && Reported(cfg, p.ups, ce, now, p'.ups)
    && p'.cache == ReportedCache(p, ce)[ce.addr := Idle(ReportedCache(p, ce), ce.addr) + [ce]]
  }

  /** CloseConnection, up to the Close of the socket itself. */
  ghost predicate CloseStep(cfg: Config, p: Pool, ce: Conn, now: Time, p': Pool) {
    && Reported(cfg, p.ups, ce, now, p'.ups)
    && p'.cache == ReportedCache(p, ce)
  }

  /** The failure branch of NewConnection: cool and purge, without sorting. */
  function DialFailure(cfg: Config, p: Pool, addr: string, now: Time): Pool {
    var i := FirstAt(p.ups, addr);
    if i == |p.ups| then p
    else Pool(p.ups[i := Cool(cfg, p.ups[i], now)], Purge(p.cache, addr))
  }

  function DialSpawned(p: Pool, addr: string): seq<Conn> {
    if Known(p.ups, addr) then Idle(p.cache, addr) else []
  }

  /** What a report does to the idle lists, address by address, and to their keys. An unknown
      address changes nothing but that `Add` appends; a connection without error leaves every
      list as it is. */
  lemma AddLists(cfg: Config, p: Pool, ce: Conn, now: Time, p': Pool, a: string)
    requires AddStep(cfg, p, ce, now, p')
    ensures a in p'.cache <==> a in p.cache || a == ce.addr
    ensures Idle(p'.cache, a) == (if ce.err && a == ce.addr && Known(p.ups, a) then [] else Idle(p.cache, a))
                                 + if a == ce.addr then [ce] else []
    ensures !Known(p.ups, ce.addr) ==> p'.ups == p.ups
  {
    hide AddressOf;
  }

  lemma CloseLists(cfg: Config, p: Pool, ce: Conn, now: Time, p': Pool, a: string)
    requires CloseStep(cfg, p, ce, now, p')
    ensures a in p'.cache <==> a in p.cache
    ensures Idle(p'.cache, a) == if ce.err && a == ce.addr && Known(p.ups, a) then [] else Idle(p.cache, a)
    ensures !Known(p.ups, ce.addr) ==> p'.ups == p.ups
  {
    hide AddressOf;
  }

  lemma DialFailureLists(cfg: Config, p: Pool, addr: string, now: Time, a: string)
    ensures var p' := DialFailure(cfg, p, addr, now);
            && (a in p'.cache <==> a in p.cache)
            && Idle(p'.cache, a) == (if a == addr && Known(p.ups, a) then [] else Idle(p.cache, a))
            && (!Known(p.ups, addr) ==> p' == p)
  {
    hide AddressOf;
  }

  // ------------------------------------------- what one update does to records

  /** No two records share a reference, and each occurs once. */
  ghost predicate Distinct(ups: seq<Upstream>) {
    && (forall u | u in multiset(ups) :: multiset(ups)[u] == 1)
    && (forall u, v | u in multiset(ups) && v in multiset(ups) && u.ref == v.ref :: u == v)
  }

  /** Only one record changed, the list may have been reordered. */
  ghost predicate Replaced(ups: seq<Upstream>, u: Upstream, u': Upstream, ups': seq<Upstream>) {
    && u in multiset(ups)
    && u'.Identity() == u.Identity()
    && multiset(ups') == multiset(ups) - multiset{u} + multiset{u'}
  }

  lemma ReportedReplaces(cfg: Config, ups: seq<Upstream>, ce: Conn, now: Time, ups': seq<Upstream>)
    requires Reported(cfg, ups, ce, now, ups') && Known(ups, ce.addr)
    ensures var u := ups[FirstAt(ups, ce.addr)]; Replaced(ups, u, Report(cfg, u, ce, now), ups')
    ensures Sorted(ups')
  {
    var i := FirstAt(ups, ce.addr);
    assert ups[i] in multiset(ups);
  }

  lemma CoolKeepsOrder(cfg: Config, ups: seq<Upstream>, i: nat, now: Time)
    requires Sorted(ups) && i < |ups|
    ensures Sorted(ups[i := Cool(cfg, ups[i], now)])
  {
  }

  lemma DialFailureReplaces(cfg: Config, p: Pool, addr: string, now: Time)
    requires Known(p.ups, addr)
    ensures var u := p.ups[FirstAt(p.ups, addr)];
            Replaced(p.ups, u, Cool(cfg, u, now), DialFailure(cfg, p, addr, now).ups)
  {
    assert p.ups[FirstAt(p.ups, addr)] in multiset(p.ups);
  }

  lemma ReplacedCount(ups: seq<Upstream>, u: Upstream, u': Upstream, ups': seq<Upstream>)
    requires Distinct(ups) && Replaced(ups, u, u', ups')
    ensures Distinct(ups') && |ups'| == |ups|
    ensures forall v :: v in ups' <==> v == u' || (v in ups && v.ref != u.ref)
  {
    var m, m' := multiset(ups), multiset(ups');
    assert |m| == |ups| && |m'| == |ups'|;
    assert forall v :: v in ups <==> v in m;
    assert forall v :: v in ups' <==> v in m';
    forall v ensures v in m' <==> v == u' || (v in m && v.ref != u.ref) {
      assert m'[v] == m[v] - (if v == u then 1 else 0) + (if v == u' then 1 else 0);
    }
    assert forall v | v in m' :: m'[v] == m[v] - (if v == u then 1 else 0) + (if v == u' then 1 else 0);
  }

  /** After a replacement every record is either the new one or an old one with another ref. */
  lemma ReplacedMembers(ups: seq<Upstream>, u: Upstream, u': Upstream, ups': seq<Upstream>)
    requires Distinct(ups) && Replaced(ups, u, u', ups')
    ensures Distinct(ups') && |ups'| == |ups|
    ensures forall v :: v in ups' <==> v == u' || (v in ups && v.ref != u.ref)
    ensures Addresses(ups') == Addresses(ups)
  {
    ReplacedCount(ups, u, u', ups');
    assert u'.Address() == u.Address();
    forall a ensures a in Addresses(ups') <==> a in Addresses(ups) {
      if a in Addresses(ups) {
        var v :| v in ups && v.Address() == a;
        assert (if v.ref == u.ref then u' else v) in ups';
      }
    }
  }
}
