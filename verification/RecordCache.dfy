/** The record cache and the trashman as mutable objects: records are heap objects whose TTLs
    a read overwrites in place, and each method is proved to act as `CacheSystem` says. */
module RecordCache {
  import opened PoolSpec
  import opened CacheSpec
  import CacheSystem
  import Text

  class Record {
    const data: string
    var ttl: Ttl

    constructor (data: string, ttl: Ttl)
      ensures View() == RR(data, ttl)
    {
      this.data, this.ttl := data, ttl;
    }

    function View(): RR
      reads this
    {
      RR(data, ttl)
    }
  }

  /** A response whose answer points at records. */
  datatype Message = Message(name: string, qtype: nat, body: string, created: Time, answer: seq<Record>) {
    function FormatKey(): string {
      Text.Key(name, qtype)
    }

    function View(): Response
      reads answer
    {
      Response(name, qtype, body, created, RRs(answer))
    }

    predicate IsExpired(rr: Record, now: Time)
      reads rr
    {
      created + rr.ttl * SECOND < now
    }

    method UpdateTtl(rr: Record, now: Time)
      modifies rr
      ensures rr.View() == old(rr.View()).(ttl := Refresh(created, old(rr.ttl), now))
    {
      if IsExpired(rr, now) {
        return;
      }
      var left := created + rr.ttl * SECOND - now;
      rr.ttl := (left / SECOND) % UINT32;
    }

    /** The same for record i, on the values of the whole answer. */
    method UpdateAt(i: nat, now: Time)
      requires AllDifferent(answer) && i < |answer|
      modifies answer[i]
      ensures RRs(answer) == old(RRs(answer))[i := Renewed(created, old(RRs(answer))[i], now)]
    {
      UpdateTtl(answer[i], now);
    }
  }

  function RRs(records: seq<Record>): seq<RR>
    reads records
  {
    seq(|records|, i requires 0 <= i < |records| reads records => records[i].View())
  }

  ghost predicate AllDifferent(records: seq<Record>) {
    forall i, j :: 0 <= i < j < |records| ==> records[i] != records[j]
  }

  function Renewed(created: Time, rr: RR, now: Time): RR {
    rr.(ttl := Refresh(created, rr.ttl, now))
  }

  /** Records `done` are what a walk made of the first i records, and it goes on after them. */
  ghost predicate WalkedTo(created: Time, rrs: seq<RR>, i: nat, done: seq<RR>, now: Time)
    requires i <= |rrs|
  {
    Walk(created, rrs, now) == (done + Walk(created, rrs[i..], now).0, Walk(created, rrs[i..], now).1)
  }

  lemma Splice<T>(done: seq<T>, all: seq<T>, i: nat, x: T)
    requires |done| == i < |all|
    ensures (done + all[i..])[i := x] == done + [x] + all[i + 1..]
  {
    assert all[i..][0 := x] == [x] + all[i + 1..];
    assert (done + all[i..])[i := x] == done + all[i..][0 := x];
    assert done + ([x] + all[i + 1..]) == done + [x] + all[i + 1..];
  }

  lemma WalkStarts(created: Time, rrs: seq<RR>, now: Time)
    ensures WalkedTo(created, rrs, 0, [], now)
  {
    assert rrs[0..] == rrs && [] + Walk(created, rrs, now).0 == Walk(created, rrs, now).0;
  }

  lemma WalkGoesOn(created: Time, rrs: seq<RR>, i: nat, done: seq<RR>, now: Time)
    requires i < |rrs| && WalkedTo(created, rrs, i, done, now)
    ensures var rr := Renewed(created, rrs[i], now);
            if Expired(created, rr.ttl, now) then Walk(created, rrs, now) == (done + [rr] + rrs[i + 1..], false)
            else WalkedTo(created, rrs, i + 1, done + [rr], now)
  {
    var rr := Renewed(created, rrs[i], now);
    assert rrs[i..][1..] == rrs[i + 1..];
    assert done + ([rr] + rrs[i + 1..]) == done + [rr] + rrs[i + 1..];
    var rest := Walk(created, rrs[i + 1..], now).0;
    assert done + ([rr] + rest) == done + [rr] + rest;
  }

  lemma WalkEnds(created: Time, rrs: seq<RR>, done: seq<RR>, now: Time)
    requires WalkedTo(created, rrs, |rrs|, done, now)
    ensures Walk(created, rrs, now) == (done, true) && done + rrs[|rrs|..] == done
  {
    assert rrs[|rrs|..] == [] && done + [] == done;
  }

  ghost function Records(cache: map<string, Message>): set<Record> {
    set k, rr | k in cache && rr in cache[k].answer :: rr
  }

  /** No two entries share a record. */
  ghost predicate Apart(cache: map<string, Message>) {
    forall k, l, rr | k in cache && l in cache && rr in cache[k].answer && rr in cache[l].answer :: k == l
  }

  lemma ApartAdd(cache: map<string, Message>, key: string, r: Message)
    requires Apart(cache) && forall rr | rr in r.answer :: rr !in Records(cache - {key})
    ensures Apart(cache[key := r])
  {
    forall k, rr | k in cache && k != key && rr in cache[k].answer ensures rr !in r.answer {
      assert (cache - {key})[k] == cache[k] && rr in Records(cache - {key});
    }
  }

  ghost function Views(cache: map<string, Message>): map<string, Response>
    reads Records(cache)
  {
    map k | k in cache :: assert forall rr | rr in cache[k].answer :: rr in Records(cache); cache[k].View()
  }

  ghost function KeySet(messages: seq<Message>): set<string> {
    set r | r in messages :: r.FormatKey()
  }

  lemma KeySetAppend(messages: seq<Message>, r: Message)
    ensures KeySet(messages + [r]) == KeySet(messages) + {r.FormatKey()}
  {
    forall k ensures k in KeySet(messages + [r]) <==> k in KeySet(messages) + {r.FormatKey()} {
      if k in KeySet(messages) {
        var m :| m in messages && m.FormatKey() == k;
        assert m in messages + [r];
      } else if k == r.FormatKey() {
        assert r in messages + [r];
      }
    }
  }

  lemma Associate<T>(a: seq<T>, b: seq<T>, c: seq<T>)
    ensures a + b + c == a + (b + c)
  {
  }

  lemma RemoveOne(m: map<string, Message>, k: string)
    requires k in m
    ensures |m - {k}| < |m| && m.Keys == (m - {k}).Keys + {k}
  {
    assert m.Keys == (m - {k}).Keys + {k};
    assert |m| == |m.Keys| && |m - {k}| == |(m - {k}).Keys|;
  }

  lemma RemoveInTurn(m: map<string, Message>, keys: set<string>, k: string)
    ensures m - keys - {k} == m - (keys + {k})
  {
  }

  lemma LeaveOut(dead: set<string>, left: set<string>, key: string)
    requires key in left
    ensures multiset(dead - (left - {key})) == multiset(dead - left) + if key in dead then multiset{key} else multiset{}
  {
    assert dead - (left - {key}) == if key in dead then dead - left + {key} else dead - left;
  }

  class RecordCache {
    var cache: map<string, Message>
    var sends: seq<Message> // Evict goroutines

    constructor ()
      ensures Valid() && cache == map[] && sends == []
    {
      cache, sends := map[], [];
    }

    /** Entries are under their own keys, and no record object is shared. */
    ghost predicate Valid()
      reads this`cache
    {
      && (forall k | k in cache :: cache[k].FormatKey() == k && AllDifferent(cache[k].answer))
      && Apart(cache)
    }

    /** A response may share records with the one it replaces, and with no other. */
    method Add(response: Message)
      requires Valid() && AllDifferent(response.answer)
      requires forall rr | rr in response.answer :: rr !in Records(cache - {response.FormatKey()})
      modifies this`cache
      ensures Valid() && Views(cache) == old(Views(cache))[response.FormatKey() := response.View()]
    {
      ApartAdd(cache, response.FormatKey(), response);
      cache := cache[response.FormatKey() := response];
      assert Views(cache) == old(Views(cache))[response.FormatKey() := response.View()];
    }

    method Evict(response: Message)
      modifies this`sends
      ensures sends == old(sends) + [response]
    {
      sends := sends + [response];
    }

    /** One round of the loop of Get: record i is updated, then checked. */
    method RefreshOne(response: Message, i: nat, ghost rrs: seq<RR>, ghost done: seq<RR>, now: Time)
      returns (expired: bool)
      requires AllDifferent(response.answer) && i < |response.answer| == |rrs|
      requires |done| == i && RRs(response.answer) == done + rrs[i..]
      modifies response.answer[i]
      ensures var rr := Renewed(response.created, rrs[i], now);
              RRs(response.answer) == done + [rr] + rrs[i + 1..] && (expired <==> Expired(response.created, rr.ttl, now))
    {
      Splice(done, rrs, i, Renewed(response.created, rrs[i], now));
      response.UpdateAt(i, now);
      assert response.answer[i].View() == RRs(response.answer)[i];
      expired := response.IsExpired(response.answer[i], now);
    }

    /** The loop over the answer of a response, with its early exit. */
    method Refreshed(response: Message, now: Time) returns (hit: bool)
      requires AllDifferent(response.answer)
      modifies response.answer, this`sends
      ensures (RRs(response.answer), hit) == Walk(response.created, old(RRs(response.answer)), now)
      ensures sends == old(sends) + if hit then [] else [response]
    {
      hide Walk, WalkedTo, Renewed, Expired;
      ghost var rrs := RRs(response.answer);
      ghost var done: seq<RR> := [];
      WalkStarts(response.created, rrs, now);
      var i := 0;
      while i < |response.answer|
        invariant 0 <= i <= |response.answer| && sends == old(sends)
        invariant |done| == i && RRs(response.answer) == done + rrs[i..]
        invariant WalkedTo(response.created, rrs, i, done, now)
      {
        WalkGoesOn(response.created, rrs, i, done, now);
        var expired := RefreshOne(response, i, rrs, done, now);
        if expired {
          Evict(response);
          return false;
        }
        done := done + [Renewed(response.created, rrs[i], now)];
        i := i + 1;
      }
      WalkEnds(response.created, rrs, done, now);
      return true;
    }

    lemma Separate(key: string)
      requires Valid() && key in cache
      ensures forall k, i | k in cache && k != key && 0 <= i < |cache[k].answer| :: cache[k].answer[i] !in cache[key].answer
      ensures forall i | 0 <= i < |cache[key].answer| :: cache[key].answer[i] in Records(cache)
    {
      forall k, i | k in cache && k != key && 0 <= i < |cache[k].answer|
        ensures cache[k].answer[i] !in cache[key].answer
      {
        assert cache[k].answer[i] in cache[k].answer;
      }
      assert forall i | 0 <= i < |cache[key].answer| :: cache[key].answer[i] in cache[key].answer;
    }

    /** The read of a present entry. The TTLs it writes stay in the cache. */
    method ReadEntry(key: string, now: Time) returns (hit: bool)
      requires Valid() && key in cache
      modifies Records(cache), this`sends
      ensures Valid() && cache == old(cache)
      ensures var r := old(cache[key].View()); var (answer, h) := Walk(r.created, r.answer, now);
              hit == h && cache[key].View() == r.(answer := answer)
      ensures forall k | k in cache && k != key :: cache[k].View() == old(cache[k].View())
      ensures sends == old(sends) + if hit then [] else [cache[key]]
    {
      hide Text.Key;
      Separate(key);
      hit := Refreshed(cache[key], now);
      forall k | k in cache && k != key ensures RRs(cache[k].answer) == old(RRs(cache[k].answer)) {
      }
    }

    method Get(name: string, qtype: nat, now: Time) returns (r: Option<Message>)
      requires Valid()
      modifies Records(cache), this`sends
      ensures Valid() && cache == old(cache)
      ensures var (out, views, evict) := CacheSystem.Lookup(old(Views(cache)), name, qtype, now);
              && Views(cache) == views
              && (match out case None => r.None? case Some(v) => r.Some? && r.value.View() == v)
              && (evict ==> Text.Key(name, qtype) in cache)
              && sends == old(sends) + if evict then [cache[Text.Key(name, qtype)]] else []
    {
      hide Text.Key, Walk, RRs, Apart;
      var key := Text.Key(name, qtype);
      if key !in cache {
        return None;
      }
      var response := cache[key];
      if response.qtype != qtype {
        return None;
      }
      ghost var views := Views(cache);
      var hit := ReadEntry(key, now);
      assert Views(cache) == views[key := response.View()];
      return if hit then Some(response) else None;
    }

    method Remove(response: Message)
      requires Valid()
      modifies this`cache
      ensures Valid() && cache == old(cache) - {response.FormatKey()}
    {
      cache := cache - {response.FormatKey()};
    }

    method RemoveSlice(responses: seq<Message>)
      requires Valid()
      modifies this`cache
      ensures Valid() && cache == old(cache) - KeySet(responses)
    {
      var i := 0;
      while i < |responses|
        invariant 0 <= i <= |responses| && Valid()
        invariant cache == old(cache) - KeySet(responses[..i])
      {
        assert responses[..i + 1] == responses[..i] + [responses[i]];
        KeySetAppend(responses[..i], responses[i]);
        RemoveInTurn(old(cache), KeySet(responses[..i]), responses[i].FormatKey());
        Remove(responses[i]);
        i := i + 1;
      }
      assert responses[..i] == responses;
    }

    /** The inner loop of Clean. */
    method HasExpired(response: Message, now: Time) returns (expired: bool)
      ensures expired <==> Dead(response.View(), now)
    {
      var i := 0;
      while i < |response.answer|
        invariant 0 <= i <= |response.answer|
        invariant forall j :: 0 <= j < i ==> !Expired(response.created, RRs(response.answer)[j].ttl, now)
      {
        if response.IsExpired(response.answer[i], now) {
          assert Expired(response.created, response.View().answer[i].ttl, now);
          return true;
        }
        i := i + 1;
      }
      return false;
    }

    /** These are the entries under these keys. */
    ghost predicate EntriesOf(evicted: seq<Message>, keys: seq<string>)
      reads this`cache
    {
      |evicted| == |keys| && forall i :: 0 <= i < |evicted| ==> keys[i] in cache && evicted[i] == cache[keys[i]]
    }

    lemma EntriesAppend(evicted: seq<Message>, keys: seq<string>, key: string)
      requires EntriesOf(evicted, keys) && key in cache
      ensures EntriesOf(evicted + [cache[key]], keys + [key]) && multiset(keys + [key]) == multiset(keys) + multiset{key}
    {
    }

    /** The body of Clean's loop, for one entry. */
    method CleanEntry(key: string, now: Time, ghost dead: set<string>) returns (expired: bool)
      requires key in cache && dead == CacheSystem.DeadKeys(Views(cache), now)
      modifies this`sends
      ensures dead == CacheSystem.DeadKeys(Views(cache), now) && (expired <==> key in dead)
      ensures sends == if expired then old(sends) + [cache[key]] else old(sends)
    {
      expired := HasExpired(cache[key], now);
      assert Views(cache)[key] == cache[key].View();
      if expired {
        Evict(cache[key]);
      }
    }

    /** Evicts every response that holds an expired record, each once, in some order. */
    method Clean(now: Time) returns (deleted: nat, ghost evicted: seq<Message>, ghost keys: seq<string>)
      requires Valid()
      modifies this`sends
      ensures Valid() && sends == old(sends) + evicted && deleted == |evicted|
      ensures EntriesOf(evicted, keys) && multiset(keys) == multiset(CacheSystem.DeadKeys(Views(cache), now))
    {
      hide Text.Key;
      deleted, evicted, keys := 0, [], [];
      var left := cache.Keys;
      ghost var dead := CacheSystem.DeadKeys(Views(cache), now);
      assert dead - left == {};
      while left != {}
        invariant left <= cache.Keys && sends == old(sends) + evicted && deleted == |evicted|
        invariant dead == CacheSystem.DeadKeys(Views(cache), now)
        invariant EntriesOf(evicted, keys) && multiset(keys) == multiset(dead - left)
        decreases left
      {
        var key :| key in left;
        var expired := CleanEntry(key, now, dead);
        LeaveOut(dead, left, key);
        if expired {
          Associate(old(sends), evicted, [cache[key]]);
          EntriesAppend(evicted, keys, key);
          evicted, keys := evicted + [cache[key]], keys + [key];
          deleted := deleted + 1;
        }
        left := left - {key};
      }
      assert dead - left == dead;
    }
  }

  lemma ViewsRemove(cache: map<string, Message>, keys: set<string>)
    ensures Views(cache - keys) == Views(cache) - keys
  {
  }

  /** What the trashman's loop can receive. */
  datatype Event = Evicted(r: Message) | Pausing(p: bool) | Cancelled

  /** One turn of the loop, on values. */
  ghost function React(batch: int, s: CacheSystem.State, e: Event): CacheSystem.State {
    match e
    case Evicted(r) =>
      var key := r.FormatKey();
      CacheSystem.FlushIfFull(CacheSystem.Enqueue(s.(sends := s.sends - multiset{key}), key), batch)
    case Pausing(p) => CacheSystem.FlushIfFull(s.(paused := p), batch)
    case Cancelled => s
  }

  ghost function Process(batch: int, s: CacheSystem.State, events: seq<Event>): CacheSystem.State {
    if events == [] then s
    else React(batch, Process(batch, s, events[..|events| - 1]), events[|events| - 1])
  }

  /** How many events arrive before the cancellation. */
  function Live(events: seq<Event>): (n: nat)
    ensures n <= |events| && (n < |events| ==> events[n].Cancelled?)
    ensures forall k :: 0 <= k < n ==> !events[k].Cancelled?
  {
    if events == [] || events[0].Cancelled? then 0 else 1 + Live(events[1..])
  }

  lemma ProcessStep(batch: int, s: CacheSystem.State, events: seq<Event>, i: nat)
    requires i < |events|
    ensures Process(batch, s, events[..i + 1]) == React(batch, Process(batch, s, events[..i]), events[i])
  {
    assert events[..i + 1][..i] == events[..i];
  }

  /** A turn of the loop is a step of the transition system. */
  lemma ReactIsStep(batch: int, s: CacheSystem.State, e: Event)
    requires !e.Cancelled? && (e.Evicted? ==> e.r.FormatKey() in s.sends)
    ensures CacheSystem.Next(batch, s, if e.Evicted? then CacheSystem.Receive(e.r.FormatKey()) else CacheSystem.SetPaused(e.p),
                             React(batch, s, e))
  {
  }

  lemma ReactSends(batch: int, s: CacheSystem.State, r: Message)
    ensures React(batch, s, Evicted(r)).sends == s.sends - multiset{r.FormatKey()}
  {
  }

  class TrashMan {
    const recordCache: RecordCache
    const evictionBatchSize: int
    var responses: map<string, Message>
    var paused: bool

    constructor (recordCache: RecordCache, evictionBatchSize: int)
      requires recordCache.Valid()
      ensures Valid() && this.recordCache == recordCache && this.evictionBatchSize == evictionBatchSize
      ensures responses == map[] && !paused
    {
      this.recordCache, this.evictionBatchSize := recordCache, evictionBatchSize;
      responses, paused := map[], false;
    }

    ghost predicate Valid()
      reads this`responses, recordCache`cache
    {
      recordCache.Valid() && forall k | k in responses :: responses[k].FormatKey() == k
    }

    ghost predicate Mirrors(s: CacheSystem.State)
      reads this`responses, this`paused, recordCache`cache, Records(recordCache.cache)
    {
      s.cache == Views(recordCache.cache) && s.queued == responses.Keys && s.paused == paused
    }

    /** Fewer than max(1, batch) responses wait while the trashman is not paused. */
    predicate Bounded()
      reads this`responses, this`paused
    {
      !paused ==> |responses| < if evictionBatchSize > 1 then evictionBatchSize else 1
    }

    method AddResponse(r: Message, ghost s: CacheSystem.State)
      requires Valid() && Mirrors(s)
      modifies this`responses
      ensures Valid() && Mirrors(CacheSystem.Enqueue(s, r.FormatKey()))
    {
      hide Text.Key;
      if r.FormatKey() !in responses {
        responses := responses[r.FormatKey() := r];
      }
    }

    /** Moves one queued response into the buffer. */
    method MoveOne(flushBuffer: seq<Message>) returns (buffer: seq<Message>)
      requires Valid() && responses != map[]
      modifies this`responses
      ensures Valid() && |responses| < old(|responses|)
      ensures responses.Keys + KeySet(buffer) == old(responses.Keys) + KeySet(flushBuffer)
    {
      hide Text.Key;
      var k :| k in responses;
      KeySetAppend(flushBuffer, responses[k]);
      RemoveOne(responses, k);
      buffer := flushBuffer + [responses[k]];
      responses := responses - {k};
    }

    /** Empties the queue into a buffer. */
    method Drain() returns (flushBuffer: seq<Message>)
      requires Valid()
      modifies this`responses
      ensures Valid() && responses == map[] && KeySet(flushBuffer) == old(responses.Keys)
    {
      flushBuffer := [];
      while responses != map[]
        invariant Valid()
        invariant responses.Keys + KeySet(flushBuffer) == old(responses.Keys)
        decreases |responses|
      {
        flushBuffer := MoveOne(flushBuffer);
      }
    }

    method FlushResponses()
      requires Valid()
      modifies this`responses, recordCache`cache
      ensures Valid() && responses == map[]
      ensures Views(recordCache.cache) == old(Views(recordCache.cache)) - old(responses.Keys)
    {
      hide Text.Key;
      var flushBuffer := Drain();
      recordCache.RemoveSlice(flushBuffer);
      ViewsRemove(old(recordCache.cache), old(responses.Keys));
    }

    /** The message case of the select. */
    method OnEvicted(r: Message, ghost s: CacheSystem.State)
      requires Valid() && Mirrors(s)
      modifies this`responses, recordCache`cache
      ensures Valid() && Bounded() && Mirrors(React(evictionBatchSize, s, Evicted(r)))
    {
      ghost var t := s.(sends := s.sends - multiset{r.FormatKey()});
      AddResponse(r, t);
      FlushIfFull(CacheSystem.Enqueue(t, r.FormatKey()));
    }

    /** The pause case of the select: unpausing flushes a full queue. */
    method OnPause(p: bool, ghost s: CacheSystem.State)
      requires Valid() && Mirrors(s)
      modifies this`responses, this`paused, recordCache`cache
      ensures Valid() && Bounded() && Mirrors(React(evictionBatchSize, s, Pausing(p)))
    {
      paused := p;
      FlushIfFull(s.(paused := p));
    }

    method FlushIfFull(ghost s: CacheSystem.State)
      requires Valid() && Mirrors(s)
      modifies this`responses, recordCache`cache
      ensures Valid() && Bounded()
      ensures Mirrors(CacheSystem.FlushIfFull(s, evictionBatchSize))
    {
      assert |responses| == |responses.Keys|;
      if |responses| >= evictionBatchSize && !paused {
        FlushResponses();
      }
    }

    /** The select, for an event other than the cancellation. */
    method Turn(e: Event, ghost s: CacheSystem.State)
      requires Valid() && Mirrors(s) && !e.Cancelled?
      modifies this`responses, this`paused, recordCache`cache
      ensures Valid() && Bounded() && Mirrors(React(evictionBatchSize, s, e))
    {
      match e {
        case Evicted(r) => OnEvicted(r, s);
        case Pausing(p) => OnPause(p, s);
      }
    }

    /** The turn for event i of the stream. */
    method TurnAt(events: seq<Event>, i: nat, ghost s: CacheSystem.State)
      requires i < |events| && !events[i].Cancelled?
      requires Valid() && Mirrors(Process(evictionBatchSize, s, events[..i]))
      modifies this`responses, this`paused, recordCache`cache
      ensures Valid() && Bounded() && Mirrors(Process(evictionBatchSize, s, events[..i + 1]))
    {
      Turn(events[i], Process(evictionBatchSize, s, events[..i]));
      ProcessStep(evictionBatchSize, s, events, i);
    }

    /** The event loop. At every loop head fewer than max(1, batch) responses are queued unless
        the trashman is paused, and what it did is the fold of its turns. */
    method Start(events: seq<Event>, ghost s: CacheSystem.State)
      requires Valid() && Mirrors(s) && Bounded()
      modifies this`responses, this`paused, recordCache`cache
      ensures Valid() && Bounded()
      ensures Mirrors(Process(evictionBatchSize, s, events[..Live(events)]))
    {
      var i, n := 0, Live(events);
      while i < |events| && !events[i].Cancelled?
        invariant 0 <= i <= n && Valid() && Bounded()
        invariant Mirrors(Process(evictionBatchSize, s, events[..i]))
        decreases |events| - i
      {
        TurnAt(events, i, s);
        i := i + 1;
      }
      assert i == n;
      assert events[..i] == events[..n];
    }
  }
}
