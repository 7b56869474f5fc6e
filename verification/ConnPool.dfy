/** The connection pool as mutable objects: each method is proved to do to the pool what
    `PoolSpec` says about its value. */
module ConnPool {
  import opened PoolSpec
  import opened Counting

  /** The network end of a connection; only whether it was closed matters here. */
  class Socket {
    var closes: nat

    constructor ()
      ensures closes == 0
    {
      closes := 0;
    }

    method Close()
      modifies this
      ensures closes == old(closes) + 1
    {
      closes := closes + 1;
    }
  }

  class UpstreamRecord {
    const ref: nat
    const name: string
    const port: int
    var weight: real
    var wakeup: Time

    constructor (ref: nat, name: string, port: int)
      ensures View() == Upstream(ref, name, port, 0.0, 0)
    {
      this.ref, this.name, this.port := ref, name, port;
      weight, wakeup := 0.0, 0;
    }

    function View(): Upstream
      reads this
    {
      Upstream(ref, name, port, weight, wakeup)
    }

    function GetAddress(): string {
      AddressOf(name, port)
    }

    method SetWeight(w: real)
      modifies this
      ensures View() == old(View()).(weight := w)
    {
      weight := w;
    }

    method Cooldown(period: nat, now: Time)
      modifies this
      ensures View() == old(View()).(wakeup := now + period)
    {
      wakeup := now + period;
    }
  }

  class ConnEntry {
    ghost const id: nat
    const conn: Socket
    const upstream: Upstream
    var totalRtt: nat
    var exchanges: nat
    var error: bool

    constructor (ghost id: nat, conn: Socket, upstream: Upstream)
      ensures View() == Conn(id, upstream.Address(), 0, 0, false)
      ensures this.conn == conn
    {
      this.id, this.conn, this.upstream := id, conn, upstream;
      totalRtt, exchanges, error := 0, 0, false;
    }

    ghost function View(): Conn
      reads this
    {
      Conn(id, GetAddress(), totalRtt, exchanges, error)
    }

    function GetAddress(): string {
      upstream.Address()
    }

    function GetWeight(): (weight: real)
      reads this
      ensures weight == View().Weight()
    {
      if totalRtt == 0 || exchanges == 0 then 0.0
      else (totalRtt / MILLISECOND) as real / exchanges as real
    }

    method AddError()
      modifies this
      ensures View() == old(View()).(err := true)
    {
      error := true;
    }

    method AddExchange(cfg: Config, rtt: nat)
      modifies this
      ensures View() == old(View()).AddExchange(cfg, rtt)
    {
      var timeout := if cfg.timeout == 0 then 500 else cfg.timeout;
      if rtt > timeout * MILLISECOND {
        AddError();
      }
      totalRtt := totalRtt + rtt;
      exchanges := exchanges + 1;
    }
  }

  ghost function RecordViews(us: seq<UpstreamRecord>): seq<Upstream>
    reads us
  {
    seq(|us|, i requires 0 <= i < |us| reads us => us[i].View())
  }

  ghost function Conns(cs: seq<ConnEntry>): seq<Conn>
    reads cs
  {
    seq(|cs|, i requires 0 <= i < |cs| reads cs => cs[i].View())
  }

  ghost function Entries(cache: map<string, seq<ConnEntry>>): set<ConnEntry> {
    set a, c | a in cache && c in cache[a] :: c
  }

  /** Goroutines only ever get entries that were idle. */
  ghost predicate Handed(before: seq<ConnEntry>, entries: set<ConnEntry>, after: seq<ConnEntry>) {
    forall i | 0 <= i < |after| :: after[i] in before || after[i] in entries
  }

  lemma PurgeHands(cache: map<string, seq<ConnEntry>>, addr: string, before: seq<ConnEntry>)
    ensures Handed(before, Entries(cache), before + Idle(cache, addr)) && Handed(before, Entries(cache), before)
  {
    var after := before + Idle(cache, addr);
    forall i | 0 <= i < |after| ensures after[i] in before || after[i] in Entries(cache) {
      if i < |before| {
        assert after[i] == before[i];
      } else {
        assert after[i] == cache[addr][i - |before|] && after[i] in cache[addr];
      }
    }
  }

  ghost function Lists(cache: map<string, seq<ConnEntry>>): map<string, seq<Conn>>
    reads Entries(cache)
  {
    map a | a in cache :: assert forall c | c in cache[a] :: c in Entries(cache); Conns(cache[a])
  }

  lemma ConnsConcat(a: seq<ConnEntry>, b: seq<ConnEntry>)
    ensures Conns(a + b) == Conns(a) + Conns(b)
  {
  }

  lemma ListsSet(cache: map<string, seq<ConnEntry>>, addr: string, list: seq<ConnEntry>)
    ensures Lists(cache[addr := list]) == Lists(cache)[addr := Conns(list)]
  {
  }

  lemma ListsPurge(cache: map<string, seq<ConnEntry>>, addr: string)
    ensures Lists(Purge(cache, addr)) == Purge(Lists(cache), addr)
    ensures Conns(Idle(cache, addr)) == Idle(Lists(cache), addr)
  {
    ListsSet(cache, addr, []);
    assert Conns([]) == [];
  }

  lemma EntriesShrink(cache: map<string, seq<ConnEntry>>, addr: string)
    ensures Entries(Purge(cache, addr)) <= Entries(cache)
    ensures addr in cache && |cache[addr]| > 0 ==>
              cache[addr][0] in Entries(cache) && Entries(cache[addr := cache[addr][1..]]) <= Entries(cache)
  {
    if addr in cache && |cache[addr]| > 0 {
      assert cache[addr][0] in cache[addr];
      assert forall c | c in cache[addr][1..] :: c in cache[addr];
    }
  }

  /** From lists of entries to lists of their values, across a report. */
  lemma LiftReport(before: map<string, seq<ConnEntry>>, after: map<string, seq<ConnEntry>>,
                   waiting: seq<ConnEntry>, waiting': seq<ConnEntry>, ups: seq<Upstream>, ce: Conn)
    requires var purged := Known(ups, ce.addr) && ce.err;
             && after == (if purged then Purge(before, ce.addr) else before)
             && waiting' == waiting + (if purged then Idle(before, ce.addr) else [])
    ensures var p := Pool(ups, Lists(before));
            Lists(after) == ReportedCache(p, ce) && Conns(waiting') == Conns(waiting) + Spawned(p, ce)
  {
    ListsPurge(before, ce.addr);
    ConnsConcat(waiting, Idle(before, ce.addr));
    assert waiting + [] == waiting;
  }

  /** The same across a failed dial to a known address. */
  lemma LiftDialFailure(before: map<string, seq<ConnEntry>>, waiting: seq<ConnEntry>, p: Pool, addr: string)
    requires Known(p.ups, addr) && p.cache == Lists(before)
    ensures Lists(Purge(before, addr)) == Purge(p.cache, addr)
    ensures Conns(waiting + Idle(before, addr)) == Conns(waiting) + DialSpawned(p, addr)
    ensures Entries(Purge(before, addr)) <= Entries(before)
    ensures Handed(waiting, Entries(before), waiting + Idle(before, addr))
  {
    ListsPurge(before, addr);
    ConnsConcat(waiting, Idle(before, addr));
    EntriesShrink(before, addr);
    PurgeHands(before, addr, waiting);
  }

  lemma LiftAppend(cache: map<string, seq<ConnEntry>>, ce: ConnEntry)
    ensures var addr := ce.GetAddress();
            Lists(cache[addr := Idle(cache, addr) + [ce]]) == Lists(cache)[addr := Idle(Lists(cache), addr) + [ce.View()]]
  {
    var addr := ce.GetAddress();
    ListsPurge(cache, addr);
    ConnsConcat(Idle(cache, addr), [ce]);
    assert Conns([ce]) == [ce.View()];
    ListsSet(cache, addr, Idle(cache, addr) + [ce]);
  }

  lemma {:induction false} FirstAtIs(ups: seq<Upstream>, addr: string, i: nat)
    requires i <= |ups| && (forall k :: 0 <= k < i ==> ups[k].Address() != addr)
    requires i < |ups| ==> ups[i].Address() == addr
    ensures FirstAt(ups, addr) == i
  {
    hide AddressOf;
  }

  lemma ListSize(cache: map<string, seq<ConnEntry>>, addr: string)
    ensures addr in Lists(cache) <==> addr in cache
    ensures addr in cache ==> |Lists(cache)[addr]| == |cache[addr]|
  {
  }

  /** The selection loop has passed the first i records and found none that is ready; c is the
      first open one among them, |ups| when there is none. */
  ghost predicate Scanned(p: Pool, now: Time, i: nat, c: nat) {
    && i <= |p.ups| && (c < i || c == |p.ups|)
    && (c < |p.ups| ==> Open(p, now, p.ups[c]))
    && (forall k :: 0 <= k < i ==> !Ready(p, now, p.ups[k]))
    && forall k :: 0 <= k < i && k < c ==> !Open(p, now, p.ups[k])
  }

  lemma ScanOn(p: Pool, now: Time, i: nat, c: nat)
    requires Scanned(p, now, i, c) && i < |p.ups| && !Ready(p, now, p.ups[i])
    ensures Scanned(p, now, i + 1, if c == |p.ups| && Open(p, now, p.ups[i]) then i else c)
  {
    hide AddressOf;
  }

  lemma ScanStops(p: Pool, now: Time, i: nat, c: nat)
    requires Scanned(p, now, i, c) && i < |p.ups| && Ready(p, now, p.ups[i])
    ensures Choose(p, now) == p.ups[i]
  {
    assert FirstReady(p, now, 0) == i;
  }

  lemma ScanEnds(p: Pool, now: Time, c: nat)
    requires 0 < |p.ups| && Scanned(p, now, |p.ups|, c)
    ensures Choose(p, now) == p.ups[if c < |p.ups| then c else 0]
  {
    assert FirstReady(p, now, 0) == |p.ups|;
    assert FirstOpen(p, now, 0) == c;
  }

  lemma {:induction false} TotalSameSizes<S, T>(m: map<string, seq<S>>, n: map<string, seq<T>>)
    requires m.Keys == n.Keys && forall a | a in m :: |m[a]| == |n[a]|
    ensures Total(m) == Total(n)
    decreases |m|
  {
    if m == map[] {
      assert n == map[];
    } else {
      var a :| a in m;
      TotalRemove(m, a);
      TotalRemove(n, a);
      TotalSameSizes(m - {a}, n - {a});
    }
  }

  /** The first n records are in order, except that record j may be too light for its place. */
  ghost predicate SortedBut(ups: seq<Upstream>, n: nat, j: nat) {
    n <= |ups| && forall k, l :: 0 <= k < l < n && l != j ==> ups[k].weight <= ups[l].weight
  }

  function Swapped<T>(s: seq<T>, j: nat): (r: seq<T>)
    requires 0 < j < |s|
    ensures |r| == |s|
  {
    s[j - 1 := s[j]][j := s[j - 1]]
  }

  lemma SwapKeeps<T>(s: seq<T>, j: nat)
    requires 0 < j < |s|
    ensures multiset(Swapped(s, j)) == multiset(s)
  {
  }

  lemma SwapViews(us: seq<UpstreamRecord>, j: nat)
    requires 0 < j < |us|
    ensures RecordViews(Swapped(us, j)) == Swapped(RecordViews(us), j)
  {
  }

  lemma SwapSorts(ups: seq<Upstream>, n: nat, j: nat)
    requires SortedBut(ups, n, j) && 0 < j < n && ups[j].weight < ups[j - 1].weight
    ensures SortedBut(Swapped(ups, j), n, j - 1) && multiset(Swapped(ups, j)) == multiset(ups)
  {
  }

  lemma SortedAt(ups: seq<Upstream>, n: nat, j: nat)
    requires SortedBut(ups, n, j) && j < n && (j > 0 ==> ups[j - 1].weight <= ups[j].weight)
    ensures SortedBut(ups, n, n)
  {
    forall k, l | 0 <= k < l < n ensures ups[k].weight <= ups[l].weight {
      if l == j && k < j - 1 {
        assert ups[k].weight <= ups[j - 1].weight;
      }
    }
  }

  class ConnectionPool {
    const cfg: Config
    var upstreams: seq<UpstreamRecord>
    var cache: map<string, seq<ConnEntry>>
    var spawned: seq<ConnEntry> // goroutines that will call CloseConnection

    constructor (cfg: Config)
      ensures this.cfg == cfg && upstreams == [] && spawned == []
      ensures View() == Pool([], map[]) && Valid()
    {
      this.cfg := cfg;
      upstreams, cache, spawned := [], map[], [];
    }

    /** Each record is listed once, and has a name. */
    ghost predicate Valid()
      reads this, upstreams
    {
      && (forall i, j :: 0 <= i < j < |upstreams| ==> upstreams[i] != upstreams[j])
      && (forall i :: 0 <= i < |upstreams| ==> upstreams[i].name != "")
    }

    ghost function View(): Pool
      reads this, upstreams, Entries(cache)
    {
      Pool(RecordViews(upstreams), Lists(cache))
    }

    method AddUpstream(u: UpstreamRecord)
      requires Valid() && u !in upstreams && u.name != ""
      modifies this`upstreams
      ensures Valid() && View() == old(View()).(ups := old(View()).ups + [u.View()])
    {
      upstreams := upstreams + [u];
    }

    method GetUpstreamByAddress(address: string) returns (u: UpstreamRecord?)
      ensures u != null <==> Known(RecordViews(upstreams), address)
      ensures u != null ==> u == upstreams[FirstAt(RecordViews(upstreams), address)]
    {
      hide AddressOf;
      ghost var ups := RecordViews(upstreams);
      var i := 0;
      while i < |upstreams|
        invariant 0 <= i <= |upstreams|
        invariant forall k :: 0 <= k < i ==> ups[k].Address() != address
      {
        assert ups[i] == upstreams[i].View();
        if upstreams[i].GetAddress() == address {
          FirstAtIs(ups, address, i);
          return upstreams[i];
        }
        i := i + 1;
      }
      FirstAtIs(ups, address, i);
      return null;
    }

    /** The selection loop, with its early exit and its candidate. */
    method GetBestUpstream(now: Time) returns (best: Upstream)
      requires Valid() && |upstreams| > 0
      ensures best == Choose(View(), now) && best.name != ""
    {
      hide AddressOf;
      ghost var p := View();
      ghost var c: nat := |p.ups|; // index of the candidate, if there is one
      var bestCandidate := Upstream(0, "", 0, 0.0, 0);
      var i := 0;
      while i < |upstreams|
        invariant 0 <= i <= |upstreams| == |p.ups| && Scanned(p, now, i, c)
        invariant if c == |p.ups| then bestCandidate.IsZero() else bestCandidate == p.ups[c] && bestCandidate.name != ""
      {
        var each := upstreams[i].View();
        assert p.ups[i] == each;
        ListSize(cache, each.Address());
        if each.Address() in cache && !each.Cooling(now) && |cache[each.Address()]| > 0 {
          ScanStops(p, now, i, c);
          assert View() == p;
          return each;
        }
        ScanOn(p, now, i, c);
        if each.Address() in cache && !each.Cooling(now) && bestCandidate.IsZero() {
          bestCandidate := each;
          c := i;
        }
        i := i + 1;
      }
      ScanEnds(p, now, c);
      assert View() == p;
      if !bestCandidate.IsZero() {
        return bestCandidate;
      }
      assert p.ups[0] == upstreams[0].View();
      return upstreams[0].View();
    }

    /** sort.Slice by weight. */
    method SortUpstreams()
      requires Valid()
      modifies this`upstreams
      ensures Valid() && multiset(upstreams) == multiset(old(upstreams))
      ensures SortOf(old(RecordViews(upstreams)), RecordViews(upstreams))
    {
      var i := 0;
      while i < |upstreams|
        invariant 0 <= i <= |upstreams| && Valid()
        invariant multiset(upstreams) == multiset(old(upstreams)) && |upstreams| == |old(upstreams)|
        invariant multiset(RecordViews(upstreams)) == multiset(old(RecordViews(upstreams)))
        invariant SortedBut(RecordViews(upstreams), i, i)
      {
        SinkInto(i);
        i := i + 1;
      }
    }

    method SinkInto(i: nat)
      requires Valid() && i < |upstreams| && SortedBut(RecordViews(upstreams), i, i)
      modifies this`upstreams
      ensures Valid() && multiset(upstreams) == multiset(old(upstreams)) && |upstreams| == |old(upstreams)|
      ensures multiset(RecordViews(upstreams)) == multiset(old(RecordViews(upstreams)))
      ensures SortedBut(RecordViews(upstreams), i + 1, i + 1)
    {
      var j := i;
      while j > 0 && upstreams[j].weight < upstreams[j - 1].weight
        invariant 0 <= j <= i < |upstreams| == |old(upstreams)| && Valid()
        invariant multiset(upstreams) == multiset(old(upstreams))
        invariant multiset(RecordViews(upstreams)) == multiset(old(RecordViews(upstreams)))
        invariant SortedBut(RecordViews(upstreams), i + 1, j)
      {
        ghost var ups := RecordViews(upstreams);
        assert ups[j] == upstreams[j].View() && ups[j - 1] == upstreams[j - 1].View();
        Swap(j);
        SwapSorts(ups, i + 1, j);
        j := j - 1;
      }
      assert j > 0 ==> RecordViews(upstreams)[j].weight >= RecordViews(upstreams)[j - 1].weight;
      SortedAt(RecordViews(upstreams), i + 1, j);
    }

    method Swap(j: nat)
      requires Valid() && 0 < j < |upstreams|
      modifies this`upstreams
      ensures Valid() && multiset(upstreams) == multiset(old(upstreams)) && |upstreams| == |old(upstreams)|
      ensures RecordViews(upstreams) == Swapped(old(RecordViews(upstreams)), j)
    {
      SwapKeeps(upstreams, j);
      SwapViews(upstreams, j);
      upstreams := upstreams[j - 1 := upstreams[j]][j := upstreams[j - 1]];
    }

    method PurgeUpstream(addr: string)
      modifies this`cache, this`spawned
      ensures cache == Purge(old(cache), addr)
      ensures spawned == old(spawned) + Idle(old(cache), addr)
    {
      if addr in cache {
        var conns := cache[addr];
        var i := 0;
        while i < |conns|
          invariant 0 <= i <= |conns|
          invariant cache == old(cache) && spawned == old(spawned) + conns[..i]
        {
          spawned := spawned + [conns[i]];
          i := i + 1;
        }
        cache := cache[addr := []];
      }
    }

    method CoolAndPurgeUpstream(u: UpstreamRecord, now: Time)
      modifies this`cache, this`spawned, u
      ensures u.View() == Cool(cfg, old(u.View()), now)
      ensures cache == Purge(old(cache), u.GetAddress())
      ensures spawned == old(spawned) + Idle(old(cache), u.GetAddress())
    {
      var period := 500 * MILLISECOND;
      if cfg.cooldown != 0 {
        period := cfg.cooldown * MILLISECOND;
      }
      u.Cooldown(period, now);
      PurgeUpstream(u.GetAddress());
    }

    /** The part of updateUpstream between the lookup and the sort. */
    method ApplyReport(u: UpstreamRecord, ce: ConnEntry, now: Time)
      modifies this`cache, this`spawned, u
      ensures u.View() == Report(cfg, old(u.View()), ce.View(), now)
      ensures cache == if ce.error then Purge(old(cache), u.GetAddress()) else old(cache)
      ensures spawned == old(spawned) + (if ce.error then Idle(old(cache), u.GetAddress()) else [])
    {
      if ce.GetWeight() != 0.0 {
        u.SetWeight(ce.GetWeight());
      }
      if ce.error {
        CoolAndPurgeUpstream(u, now);
      }
    }

    /** Reports a connection that is being returned or closed, up to the values of the lists. */
    method ReportEntry(ce: ConnEntry, now: Time) returns (ok: bool)
      requires Valid()
      modifies this`upstreams, this`cache, this`spawned, upstreams
      ensures Valid() && multiset(upstreams) == multiset(old(upstreams))
      ensures ok <==> Known(old(RecordViews(upstreams)), ce.GetAddress())
      ensures Reported(cfg, old(RecordViews(upstreams)), ce.View(), now, RecordViews(upstreams))
      ensures cache == if ok && ce.error then Purge(old(cache), ce.GetAddress()) else old(cache)
      ensures spawned == old(spawned) + (if ok && ce.error then Idle(old(cache), ce.GetAddress()) else [])
    {
      hide AddressOf;
      ghost var ups, i := RecordViews(upstreams), FirstAt(RecordViews(upstreams), ce.GetAddress());
      var u := GetUpstreamByAddress(ce.GetAddress());
      if u == null {
        return false;
      }
      assert ups[i] == u.View();
      ApplyReport(u, ce, now);
      assert RecordViews(upstreams) == ups[i := Report(cfg, ups[i], ce.View(), now)];
      SortUpstreams();
      return true;
    }

    /** updateUpstream, on the value of the pool. */
    method UpdateUpstream(ce: ConnEntry, now: Time) returns (ok: bool)
      requires Valid()
      modifies this`upstreams, this`cache, this`spawned, upstreams
      ensures Valid() && multiset(upstreams) == multiset(old(upstreams))
      ensures ok <==> Known(old(View()).ups, ce.GetAddress())
      ensures CloseStep(cfg, old(View()), ce.View(), now, View())
      ensures Conns(spawned) == old(Conns(spawned)) + Spawned(old(View()), ce.View())
      ensures Entries(cache) <= old(Entries(cache)) && Handed(old(spawned), old(Entries(cache)), spawned)
    {
      hide AddressOf;
      ghost var p, waiting := View(), Conns(spawned);
      PurgeHands(cache, ce.GetAddress(), spawned);
      ok := ReportEntry(ce, now);
      assert Lists(old(cache)) == p.cache;
      assert Conns(old(spawned)) == waiting;
      EntriesShrink(old(cache), ce.GetAddress());
      LiftReport(old(cache), cache, old(spawned), spawned, p.ups, ce.View());
    }

    /** Returns a connection to the pool; `ok` is false when its address is unknown, and the
        connection is appended all the same. */
    method Add(ce: ConnEntry, now: Time) returns (ok: bool)
      requires Valid()
      modifies this`upstreams, this`cache, this`spawned, upstreams
      ensures Valid() && multiset(upstreams) == multiset(old(upstreams))
      ensures ok <==> Known(old(View()).ups, ce.GetAddress())
      ensures AddStep(cfg, old(View()), ce.View(), now, View())
      ensures Conns(spawned) == old(Conns(spawned)) + Spawned(old(View()), ce.View())
      ensures Entries(cache) <= old(Entries(cache)) + {ce} && Handed(old(spawned), old(Entries(cache)), spawned)
    {
      hide AddressOf;
      ok := UpdateUpstream(ce, now);
      Append(ce);
    }

    method Append(ce: ConnEntry)
      modifies this`cache
      ensures var addr := ce.GetAddress();
              View() == old(View()).(cache := old(View()).cache[addr := Idle(old(View()).cache, addr) + [ce.View()]])
      ensures Entries(cache) <= old(Entries(cache)) + {ce}
    {
      hide AddressOf;
      var address := ce.GetAddress();
      ghost var p := View();
      LiftAppend(cache, ce);
      if address in cache {
        cache := cache[address := cache[address] + [ce]];
      } else {
        cache := cache[address := [ce]];
      }
      assert [] + [ce] == [ce];
      assert RecordViews(upstreams) == p.ups;
      assert cache == old(cache)[address := Idle(old(cache), address) + [ce]];
    }

    method CloseConnection(ce: ConnEntry, now: Time)
      requires Valid()
      modifies this`upstreams, this`cache, this`spawned, upstreams, ce.conn
      ensures Valid() && multiset(upstreams) == multiset(old(upstreams))
      ensures CloseStep(cfg, old(View()), ce.View(), now, View())
      ensures Conns(spawned) == old(Conns(spawned)) + Spawned(old(View()), ce.View())
      ensures ce.conn.closes == old(ce.conn.closes) + 1
      ensures Entries(cache) <= old(Entries(cache)) && Handed(old(spawned), old(Entries(cache)), spawned)
    {
      hide AddressOf;
      var ok := UpdateUpstream(ce, now);
      ghost var p, waiting := View(), Conns(spawned);
      ce.conn.Close();
      assert RecordViews(upstreams) == p.ups && Lists(cache) == p.cache && Conns(spawned) == waiting;
    }

    /** One of the goroutines started by a purge runs. */
    method RunSpawned(k: nat, now: Time) returns (ce: ConnEntry)
      requires Valid() && k < |spawned|
      modifies this`upstreams, this`cache, this`spawned, upstreams, spawned[k].conn
      ensures Valid() && multiset(upstreams) == multiset(old(upstreams))
      ensures ce == old(spawned[k]) && ce.conn.closes == old(ce.conn.closes) + 1
      ensures CloseStep(cfg, old(View()), ce.View(), now, View())
      ensures var cs := old(Conns(spawned));
              Conns(spawned) == cs[..k] + cs[k + 1..] + Spawned(old(View()), ce.View())
      ensures Entries(cache) <= old(Entries(cache)) && Handed(old(spawned), old(Entries(cache)), spawned)
    {
      hide AddressOf;
      ce := spawned[k];
      ghost var cs := Conns(spawned);
      ghost var p := View();
      spawned := spawned[..k] + spawned[k + 1..];
      assert RecordViews(upstreams) == p.ups && Lists(cache) == p.cache;
      assert Conns(spawned) == cs[..k] + cs[k + 1..];
      CloseConnection(ce, now);
    }

    /** The failure branch of NewConnection. */
    method DialFailed(address: string, now: Time)
      requires Valid()
      modifies this`cache, this`spawned, upstreams
      ensures Valid() && View() == DialFailure(cfg, old(View()), address, now)
      ensures Conns(spawned) == old(Conns(spawned)) + DialSpawned(old(View()), address)
      ensures Entries(cache) <= old(Entries(cache)) && Handed(old(spawned), old(Entries(cache)), spawned)
    {
      hide AddressOf;
      ghost var p, i, waiting := View(), FirstAt(RecordViews(upstreams), address), Conns(spawned);
      var u := GetUpstreamByAddress(address);
      if u != null {
        assert p.ups[i] == u.View();
        CoolAndPurgeUpstream(u, now);
        assert RecordViews(upstreams) == p.ups[i := Cool(cfg, p.ups[i], now)];
        assert Lists(old(cache)) == p.cache;
        assert Conns(old(spawned)) == waiting;
        LiftDialFailure(old(cache), old(spawned), p, address);
      }
    }

    /** Dials an upstream; `dial` is the duration of a successful dial, None a failed one. */
    method NewConnection(upstream: Upstream, dial: Option<nat>, ghost id: nat, now: Time) returns (ce: ConnEntry?)
      requires Valid()
      modifies this`cache, this`spawned, upstreams
      ensures Valid() && upstreams == old(upstreams)
      ensures Entries(cache) <= old(Entries(cache)) && Handed(old(spawned), old(Entries(cache)), spawned)
      ensures dial.Some? ==>
                && ce != null && fresh(ce) && fresh(ce.conn) && ce.conn.closes == 0
                && ce.View() == NewConn(cfg, id, upstream.Address(), dial.value)
                && cache == old(cache) && spawned == old(spawned) && View() == old(View())
      ensures dial.None? ==>
                && ce == null
                && View() == DialFailure(cfg, old(View()), upstream.Address(), now)
                && Conns(spawned) == old(Conns(spawned)) + DialSpawned(old(View()), upstream.Address())
    {
      var address := upstream.Address();
      if dial.None? {
        DialFailed(address, now);
        return null;
      }
      var socket := new Socket();
      ce := new ConnEntry(id, socket, upstream);
      ce.AddExchange(cfg, dial.value);
    }

    /** Takes the head off an idle list. */
    method Pop(address: string) returns (ce: ConnEntry)
      requires Valid() && address in cache && |cache[address]| > 0
      modifies this`cache
      ensures Valid() && Conns(spawned) == old(Conns(spawned))
      ensures ce == old(cache[address][0]) && ce in old(Entries(cache))
      ensures address in View().cache && cache == old(cache)[address := old(cache)[address][1..]]
      ensures var p := old(View()); View() == p.(cache := p.cache[address := p.cache[address][1..]])
      ensures Entries(cache) <= old(Entries(cache))
    {
      hide AddressOf;
      ghost var p := View();
      ce := cache[address][0];
      EntriesShrink(cache, address);
      ListsSet(cache, address, cache[address][1..]);
      assert Conns(cache[address][1..]) == Conns(cache[address])[1..];
      cache := cache[address := cache[address][1..]];
      assert RecordViews(upstreams) == p.ups;
    }

    /** Pops an idle connection, or names the upstream to dial. */
    method Get(now: Time) returns (ce: ConnEntry?, upstream: Upstream)
      requires Valid() && |upstreams| > 0
      modifies this`cache
      ensures Valid() && Conns(spawned) == old(Conns(spawned))
      ensures var (out, p) := PoolSpec.Get(old(View()), now);
              && View() == p
              && (ce == null <==> out.Miss?)
              && (ce != null ==> out == Hit(ce.View()) && upstream.IsZero() && ce in old(Entries(cache)))
              && (ce == null ==> out == Miss(upstream) && !upstream.IsZero())
      ensures Entries(cache) <= old(Entries(cache))
    {
      hide AddressOf;
      upstream := GetBestUpstream(now);
      var address := upstream.Address();
      ListsPurge(cache, address);
      if address in cache && |cache[address]| > 0 {
        assert Conns(cache[address])[0] == cache[address][0].View();
        ce := Pop(address);
        upstream := Upstream(0, "", 0, 0.0, 0);
        return;
      }
      ce := null;
    }

    /** The number of idle connections. */
    method Size() returns (size: nat)
      ensures size == Total(View().cache)
    {
      var rest := cache;
      size := 0;
      while rest != map[]
        invariant size + Total(rest) == Total(cache)
        decreases |rest|
      {
        var a :| a in rest;
        TotalRemove(rest, a);
        size := size + |rest[a]|;
        rest := rest - {a};
      }
      TotalSameSizes(cache, View().cache);
    }
  }
}
