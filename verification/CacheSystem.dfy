/** The record cache, the goroutines of its evictions and the trashman as one interleaved
    transition system, and what holds over all its runs. */
module CacheSystem {
  import opened PoolSpec
  import opened CacheSpec
  import Text

  /** The last three fields are history: keys of all Evict calls, of the evictions merged into
      a queued one, and of those flushed. */
  datatype State = State(
    clock: Time,
    cache: map<string, Response>,
    sends: multiset<string>, // Evict goroutines that wait to hand a key to the trashman
    queued: set<string>,
    paused: bool,
    evicted: multiset<string>,
    merged: multiset<string>,
    flushed: multiset<string>)

  datatype Action =
    | Add(r: Response)
    | Get(name: string, qtype: nat)
    | Remove(r: Response)
    | Clean
    | Receive(key: string)
    | SetPaused(p: bool)

  ghost predicate Init(s: State) {
    && s.cache == map[] && s.sends == s.evicted == s.merged == s.flushed == multiset{}
    && s.queued == {} && !s.paused
  }

  /** What a Get returns, the cache it leaves, and whether it evicts. */
  function Lookup(cache: map<string, Response>, name: string, qtype: nat, now: Time)
    : (Option<Response>, map<string, Response>, bool)
  {
    var key := Text.Key(name, qtype);
    if key !in cache then (None, cache, false)
    else if cache[key].qtype != qtype then (None, cache, false)
    else
      var (answer, hit) := Walk(cache[key].created, cache[key].answer, now);
      var r := cache[key].(answer := answer);
      (if hit then Some(r) else None, cache[key := r], !hit)
  }

  function Evict(s: State, keys: multiset<string>): State {
    s.(sends := s.sends + keys, evicted := s.evicted + keys)
  }

  /** Keys under which the cleaner finds a response with an expired record. */
  ghost function DeadKeys(cache: map<string, Response>, now: Time): set<string> {
    set k | k in cache && Dead(cache[k], now)
  }

  /** AddResponse. */
  function Enqueue(s: State, key: string): State {
    if key in s.queued then s.(merged := s.merged + multiset{key})
    else s.(queued := s.queued + {key})
  }

  function Flush(s: State): State {
    s.(cache := s.cache - s.queued, queued := {}, flushed := s.flushed + multiset(s.queued))
  }

  function FlushIfFull(s: State, batch: int): State {
    if |s.queued| >= batch && !s.paused then Flush(s) else s
  }

  ghost predicate Next(batch: int, s: State, act: Action, s': State) {
    && s'.clock >= s.clock
    && var t := s.(clock := s'.clock);
    match act
    case Add(r) => r.created <= s'.clock && s' == t.(cache := s.cache[r.FormatKey() := r])
    case Get(name, qtype) =>
      var (_, cache, evict) := Lookup(s.cache, name, qtype, s'.clock);
      var key := Text.Key(name, qtype);
      s' == Evict(t, if evict then multiset{key} else multiset{}).(cache := cache)
    case Remove(r) => s' == t.(cache := s.cache - {r.FormatKey()})
    case Clean => s' == Evict(t, multiset(DeadKeys(s.cache, s'.clock)))
    case Receive(key) =>
      key in s.sends && s' == FlushIfFull(Enqueue(t.(sends := s.sends - multiset{key}), key), batch)
    case SetPaused(p) => s' == FlushIfFull(t.(paused := p), batch)
  }

  ghost predicate StepAt(batch: int, tr: seq<State>, acts: seq<Action>, k: nat)
    requires |tr| == |acts| + 1 && k < |acts|
  {
    Next(batch, tr[k], acts[k], tr[k + 1])
  }

  ghost predicate Run(batch: int, tr: seq<State>, acts: seq<Action>) {
    && |tr| == |acts| + 1 && Init(tr[0])
    && forall k :: 0 <= k < |acts| ==> StepAt(batch, tr, acts, k)
  }

  lemma ExtendRun(batch: int, tr: seq<State>, acts: seq<Action>, act: Action, s: State)
    requires Run(batch, tr, acts) && Next(batch, tr[|acts|], act, s)
    ensures Run(batch, tr + [s], acts + [act])
  {
    var tr', acts' := tr + [s], acts + [act];
    forall k | 0 <= k < |acts'| ensures StepAt(batch, tr', acts', k) {
      if k < |acts| {
        assert StepAt(batch, tr, acts, k);
      }
    }
  }

  // ----------------------------------------------------------- the trashman

  /** Fewer than max(1, batch) keys wait while the trashman is not paused, and every Evict call
      is accounted for: waiting to be sent, queued, merged into a queued one, or flushed. */
  ghost predicate Accounted(batch: int, s: State) {
    && (!s.paused ==> |s.queued| < if batch > 1 then batch else 1)
    && s.evicted == s.sends + multiset(s.queued) + s.merged + s.flushed
  }

  lemma EnqueueAccounted(s: State, key: string)
    requires key in s.sends && s.evicted == s.sends + multiset(s.queued) + s.merged + s.flushed
    ensures var t := Enqueue(s.(sends := s.sends - multiset{key}), key);
            t.evicted == t.sends + multiset(t.queued) + t.merged + t.flushed
  {
  }

  lemma FlushAccounted(batch: int, s: State)
    requires s.evicted == s.sends + multiset(s.queued) + s.merged + s.flushed
    ensures Accounted(batch, FlushIfFull(s, batch))
  {
  }

  lemma AccountedStep(batch: int, s: State, act: Action, s': State)
    requires Accounted(batch, s) && Next(batch, s, act, s')
    ensures Accounted(batch, s')
  {
    match act
    case Receive(key) =>
      EnqueueAccounted(s.(clock := s'.clock), key);
      FlushAccounted(batch, Enqueue(s.(clock := s'.clock, sends := s.sends - multiset{key}), key));
    case SetPaused(p) => FlushAccounted(batch, s.(clock := s'.clock, paused := p));
    case _ =>
  }

  lemma {:induction false} TrashmanAccounts(batch: int, tr: seq<State>, acts: seq<Action>, k: nat)
    requires Run(batch, tr, acts) && k < |tr|
    ensures Accounted(batch, tr[k])
  {
    if k > 0 {
      TrashmanAccounts(batch, tr, acts, k - 1);
      assert StepAt(batch, tr, acts, k - 1);
      AccountedStep(batch, tr[k - 1], acts[k - 1], tr[k]);
    }
  }

  /** The trashman deletes a key only if an eviction of it is on its way: it is queued, or is
      the one being received. */
  lemma DeletesEvicted(batch: int, tr: seq<State>, acts: seq<Action>, k: nat, key: string)
    requires Run(batch, tr, acts) && k < |acts| && (acts[k].Receive? || acts[k].SetPaused?)
    requires key in tr[k].cache && key !in tr[k + 1].cache
    ensures key in tr[k].evicted && (key in tr[k].queued || (acts[k] == Receive(key) && key in tr[k].sends))
  {
    TrashmanAccounts(batch, tr, acts, k);
    assert StepAt(batch, tr, acts, k);
  }

  // ------------------------------------------------------ what a hit returns

  /** The response most recently added for a name and type. */
  function LastAdded(acts: seq<Action>, k: nat, name: string, qtype: nat): Option<Response>
    requires k <= |acts|
  {
    if k == 0 then None
    else if acts[k - 1].Add? && acts[k - 1].r.name == name && acts[k - 1].r.qtype == qtype then Some(acts[k - 1].r)
    else LastAdded(acts, k - 1, name, qtype)
  }

  /** The TTL a read at `now` takes off record j of a response, nothing if it is not reached
      or has expired. */
  function Taken(r: Response, j: nat, now: Time): nat
    requires r.created <= now && j < |r.answer|
  {
    if j <= FirstFailing(r.answer, now - r.created) && !Expired(r.created, r.answer[j].ttl, now)
    then Ceil(now - r.created) else 0
  }

  /** Sum of the elapsed times, each rounded up to seconds, of the reads that updated record j
      of the response under a key since that response was added. */
  ghost function Decay(tr: seq<State>, acts: seq<Action>, k: nat, key: string, j: nat): nat
    requires k <= |acts| && |tr| == |acts| + 1
  {
    if k == 0 then 0
    else
      match acts[k - 1]
      case Add(r) => if r.FormatKey() == key then 0 else Decay(tr, acts, k - 1, key, j)
      case Get(name, qtype) =>
        var cache, now := tr[k - 1].cache, tr[k].clock;
        Decay(tr, acts, k - 1, key, j) +
          if Text.Key(name, qtype) == key && key in cache && cache[key].created <= now && j < |cache[key].answer|
          then Taken(cache[key], j, now) else 0
      case _ => Decay(tr, acts, k - 1, key, j)
  }

  /** A stored response against the one that was added: all is equal but the TTLs, and each
      TTL is the original one minus what the reads took off. */
  ghost predicate Descends(tr: seq<State>, acts: seq<Action>, k: nat, key: string, r: Response)
    requires k <= |acts| && |tr| == |acts| + 1
  {
    && key == r.FormatKey()
    && var o := LastAdded(acts, k, r.name, r.qtype);
    && o.Some?
    && r == o.value.(answer := r.answer) && |r.answer| == |o.value.answer|
    && forall j :: 0 <= j < |r.answer| ==>
         && r.answer[j].data == o.value.answer[j].data
         && r.answer[j].ttl + Decay(tr, acts, k, key, j) == o.value.answer[j].ttl
  }

  ghost predicate Stored(tr: seq<State>, acts: seq<Action>, k: nat)
    requires k <= |acts| && |tr| == |acts| + 1
  {
    forall key | key in tr[k].cache ::
      tr[k].cache[key].created <= tr[k].clock && Descends(tr, acts, k, key, tr[k].cache[key])
  }

  lemma RefreshTakes(created: Time, ttl: Ttl, now: Time)
    requires created <= now
    ensures Refresh(created, ttl, now) + (if Expired(created, ttl, now) then 0 else Ceil(now - created)) == ttl
  {
    if !Expired(created, ttl, now) {
      RefreshSubtracts(created, ttl, now);
    }
  }

  /** What one read does to one record. */
  lemma ReadTakes(r: Response, now: Time, j: nat)
    requires r.created <= now && j < |r.answer|
    ensures var rr := Walk(r.created, r.answer, now).0[j];
            rr.data == r.answer[j].data && rr.ttl + Taken(r, j, now) == r.answer[j].ttl
  {
    hide Walk, Refresh, Expired;
    WalkRecords(r.created, r.answer, now);
    RefreshTakes(r.created, r.answer[j].ttl, now);
  }

  lemma FlushKeeps(batch: int, s: State, key: string)
    requires key in FlushIfFull(s, batch).cache
    ensures key in s.cache && FlushIfFull(s, batch).cache[key] == s.cache[key]
  {
  }

  /** Only an Add puts a new response under a key, and only a Get touches the TTLs of an old one. */
  lemma Kept(batch: int, s: State, act: Action, s': State, key: string)
    requires Next(batch, s, act, s') && key in s'.cache && !(act.Add? && act.r.FormatKey() == key)
    ensures key in s.cache && s'.cache[key] == s.cache[key].(answer := s'.cache[key].answer)
    ensures |s'.cache[key].answer| == |s.cache[key].answer|
    ensures (act.Get? && Text.Key(act.name, act.qtype) == key) || s'.cache[key] == s.cache[key]
  {
    match act
    case Receive(other) =>
      FlushKeeps(batch, Enqueue(s.(clock := s'.clock, sends := s.sends - multiset{other}), other), key);
    case SetPaused(p) => FlushKeeps(batch, s.(clock := s'.clock, paused := p), key);
    case _ =>
  }

  lemma AddStored(batch: int, tr: seq<State>, acts: seq<Action>, k: nat, key: string)
    requires Run(batch, tr, acts) && k < |acts| && Stored(tr, acts, k) && acts[k].Add? && key in tr[k + 1].cache
    ensures var r := tr[k + 1].cache[key];
            r.created <= tr[k + 1].clock && Descends(tr, acts, k + 1, key, r)
  {
    assert StepAt(batch, tr, acts, k);
    var a, r := acts[k].r, tr[k + 1].cache[key];
    Text.KeyInjective(a.name, a.qtype, r.name, r.qtype);
  }

  lemma GetStored(batch: int, tr: seq<State>, acts: seq<Action>, k: nat, key: string)
    requires Run(batch, tr, acts) && k < |acts| && Stored(tr, acts, k) && acts[k].Get? && key in tr[k + 1].cache
    ensures var r := tr[k + 1].cache[key];
            r.created <= tr[k + 1].clock && Descends(tr, acts, k + 1, key, r)
  {
    assert StepAt(batch, tr, acts, k);
    var r := tr[k].cache[key];
    var name, qtype := acts[k].name, acts[k].qtype;
    if Text.Key(name, qtype) == key {
      Text.KeyInjective(name, qtype, r.name, r.qtype);
      forall j | 0 <= j < |r.answer|
        ensures var rr := Walk(r.created, r.answer, tr[k + 1].clock).0[j];
                rr.data == r.answer[j].data && rr.ttl + Taken(r, j, tr[k + 1].clock) == r.answer[j].ttl
      {
        ReadTakes(r, tr[k + 1].clock, j);
      }
    }
  }

  lemma OtherStored(batch: int, tr: seq<State>, acts: seq<Action>, k: nat, key: string)
    requires Run(batch, tr, acts) && k < |acts| && Stored(tr, acts, k) && !acts[k].Get? && !acts[k].Add?
    requires key in tr[k + 1].cache
    ensures var r := tr[k + 1].cache[key];
            r.created <= tr[k + 1].clock && Descends(tr, acts, k + 1, key, r)
  {
    assert StepAt(batch, tr, acts, k);
    Kept(batch, tr[k], acts[k], tr[k + 1], key);
  }

  /** In every reachable state each stored response is the one last added for its name and
      type, under the key made of them, and each TTL is the original minus the sum of the
      elapsed times at which reads updated it. */
  lemma {:induction false} ExactTtls(batch: int, tr: seq<State>, acts: seq<Action>, k: nat)
    requires Run(batch, tr, acts) && k < |tr|
    ensures Stored(tr, acts, k)
  {
    if k > 0 {
      ExactTtls(batch, tr, acts, k - 1);
      forall key | key in tr[k].cache
        ensures tr[k].cache[key].created <= tr[k].clock && Descends(tr, acts, k, key, tr[k].cache[key])
      {
        match acts[k - 1]
        case Add(_) => AddStored(batch, tr, acts, k - 1, key);
        case Get(_, _) => GetStored(batch, tr, acts, k - 1, key);
        case _ => OtherStored(batch, tr, acts, k - 1, key);
      }
    }
  }

  /** A hit on a name and type returns the response last added for them, unchanged but for the
      TTLs; no TTL exceeds the original minus the elapsed seconds, and no record is stale. */
  lemma HitReturnsLastAdded(batch: int, tr: seq<State>, acts: seq<Action>, k: nat, name: string, qtype: nat, r: Response)
    requires Run(batch, tr, acts) && k < |acts| && acts[k] == Get(name, qtype)
    requires Lookup(tr[k].cache, name, qtype, tr[k + 1].clock).0 == Some(r)
    ensures var o := LastAdded(acts, k, name, qtype);
            && o.Some? && r.created <= tr[k + 1].clock
            && r == o.value.(answer := r.answer) && |r.answer| == |o.value.answer|
            && forall j :: 0 <= j < |r.answer| ==>
                 && r.answer[j].data == o.value.answer[j].data
                 && r.answer[j].ttl + Ceil(tr[k + 1].clock - r.created) <= o.value.answer[j].ttl
                 && !Expired(r.created, r.answer[j].ttl, tr[k + 1].clock)
  {
    ExactTtls(batch, tr, acts, k);
    assert StepAt(batch, tr, acts, k);
    var key, now := Text.Key(name, qtype), tr[k + 1].clock;
    var s := tr[k].cache[key];
    Text.KeyInjective(name, qtype, s.name, s.qtype);
    forall j | 0 <= j < |s.answer|
      ensures var rr := Walk(s.created, s.answer, now).0[j];
              && rr.data == s.answer[j].data && rr.ttl + Ceil(now - s.created) == s.answer[j].ttl
              && !Expired(s.created, rr.ttl, now)
    {
      HitTtls(s.created, s.answer, now, j);
    }
  }

  /** The branch for a mismatched query type is never taken. */
  lemma TypesMatch(batch: int, tr: seq<State>, acts: seq<Action>, k: nat, name: string, qtype: nat)
    requires Run(batch, tr, acts) && k < |tr| && Text.Key(name, qtype) in tr[k].cache
    ensures tr[k].cache[Text.Key(name, qtype)].name == name && tr[k].cache[Text.Key(name, qtype)].qtype == qtype
  {
    ExactTtls(batch, tr, acts, k);
    var r := tr[k].cache[Text.Key(name, qtype)];
    Text.KeyInjective(name, qtype, r.name, r.qtype);
  }

  // --------------------------------------------------------------- expiry

  ghost predicate DeadAt(s: State, key: string) {
    key in s.cache && Dead(s.cache[key], s.clock)
  }

  lemma StaysDead(r: Response, now: Time, later: Time)
    requires Dead(r, now) && now <= later
    ensures Dead(r, later)
  {
    var k :| 0 <= k < |r.answer| && Expired(r.created, r.answer[k].ttl, now);
    assert Expired(r.created, r.answer[k].ttl, later);
  }

  /** A Get that misses although the key is present leaves an expired entry... */
  lemma MissMeansDead(batch: int, tr: seq<State>, acts: seq<Action>, k: nat, name: string, qtype: nat)
    requires Run(batch, tr, acts) && k < |acts| && acts[k] == Get(name, qtype)
    requires Text.Key(name, qtype) in tr[k].cache
    ensures Lookup(tr[k].cache, name, qtype, tr[k + 1].clock).0.None? <==> DeadAt(tr[k + 1], Text.Key(name, qtype))
    ensures DeadAt(tr[k + 1], Text.Key(name, qtype)) ==> Text.Key(name, qtype) in tr[k + 1].sends
  {
    ExactTtls(batch, tr, acts, k);
    assert StepAt(batch, tr, acts, k);
    TypesMatch(batch, tr, acts, k, name, qtype);
    var r, now := tr[k].cache[Text.Key(name, qtype)], tr[k + 1].clock;
    MissLeavesDead(r, now);
    if Walk(r.created, r.answer, now).1 {
      forall j | 0 <= j < |r.answer| ensures !Expired(r.created, Walk(r.created, r.answer, now).0[j].ttl, now) {
        HitTtls(r.created, r.answer, now, j);
      }
    }
  }

  lemma DeadStep(batch: int, tr: seq<State>, acts: seq<Action>, k: nat, key: string)
    requires Run(batch, tr, acts) && k < |acts| && DeadAt(tr[k], key)
    requires !(acts[k].Add? && acts[k].r.FormatKey() == key) && key in tr[k + 1].cache
    ensures DeadAt(tr[k + 1], key)
  {
    assert StepAt(batch, tr, acts, k);
    ExactTtls(batch, tr, acts, k);
    var r, now := tr[k].cache[key], tr[k + 1].clock;
    StaysDead(r, tr[k].clock, now);
    if acts[k].Get? && Text.Key(acts[k].name, acts[k].qtype) == key {
      MissLeavesDead(r, now);
    }
  }

  lemma {:induction false} StaysDeadOverRun(batch: int, tr: seq<State>, acts: seq<Action>, k: nat, m: nat, key: string)
    requires Run(batch, tr, acts) && k <= m < |tr| && DeadAt(tr[k], key)
    requires forall i | k <= i < m :: acts[i].Add? ==> acts[i].r.FormatKey() != key
    ensures key in tr[m].cache ==> DeadAt(tr[m], key)
    decreases m
  {
    if k < m && key in tr[m].cache {
      assert StepAt(batch, tr, acts, m - 1);
      StaysDeadOverRun(batch, tr, acts, k, m - 1, key);
      DeadStep(batch, tr, acts, m - 1, key);
    }
  }

  lemma DeadIsRefused(batch: int, tr: seq<State>, acts: seq<Action>, m: nat, key: string)
    requires Run(batch, tr, acts) && m < |acts| && DeadAt(tr[m], key)
    ensures acts[m] == Clean ==> key in DeadKeys(tr[m].cache, tr[m + 1].clock) && key in tr[m + 1].sends
    ensures acts[m].Get? && Text.Key(acts[m].name, acts[m].qtype) == key ==>
              Lookup(tr[m].cache, acts[m].name, acts[m].qtype, tr[m + 1].clock).0.None?
  {
    assert StepAt(batch, tr, acts, m);
    ExactTtls(batch, tr, acts, m);
    StaysDead(tr[m].cache[key], tr[m].clock, tr[m + 1].clock);
    MissLeavesDead(tr[m].cache[key], tr[m + 1].clock);
  }

  /** Expiry is permanent: until a new response is added under its key, an expired entry stays
      expired as long as it stays, in spite of the rewriting of TTLs, so every Get misses it
      and every Clean evicts it. */
  lemma ExpiryIsPermanent(batch: int, tr: seq<State>, acts: seq<Action>, k: nat, m: nat, key: string)
    requires Run(batch, tr, acts) && k <= m < |acts| && DeadAt(tr[k], key) && key in tr[m].cache
    requires forall i | k <= i < m :: acts[i].Add? ==> acts[i].r.FormatKey() != key
    ensures acts[m] == Clean ==> key in DeadKeys(tr[m].cache, tr[m + 1].clock) && key in tr[m + 1].sends
    ensures acts[m].Get? && Text.Key(acts[m].name, acts[m].qtype) == key ==>
              Lookup(tr[m].cache, acts[m].name, acts[m].qtype, tr[m + 1].clock).0.None?
  {
    StaysDeadOverRun(batch, tr, acts, k, m, key);
    DeadIsRefused(batch, tr, acts, m, key);
  }

  // ----------------------------------------- what does not hold, and exactly when

  /** Was the entry under a key read before, at a time after its creation? */
  ghost predicate ReadBefore(tr: seq<State>, acts: seq<Action>, k: nat, key: string)
    requires k <= |acts| && |tr| == |acts| + 1
  {
    k > 0 &&
    match acts[k - 1]
    case Add(r) => r.FormatKey() != key && ReadBefore(tr, acts, k - 1, key)
    case Get(name, qtype) =>
      || ReadBefore(tr, acts, k - 1, key)
      || (Text.Key(name, qtype) == key && key in tr[k - 1].cache && tr[k - 1].cache[key].created < tr[k].clock)
    case _ => ReadBefore(tr, acts, k - 1, key)
  }

  lemma HitTakes(r: Response, now: Time, j: nat)
    requires r.created <= now && j < |r.answer| && Walk(r.created, r.answer, now).1
    ensures Taken(r, j, now) == Ceil(now - r.created)
  {
    WalkRecords(r.created, r.answer, now);
    assert Survives(r.answer[j].ttl, now - r.created);
  }

  /** A read that leaves a live entry took the elapsed time off every record. */
  lemma LiveReadTakes(batch: int, tr: seq<State>, acts: seq<Action>, k: nat, key: string, j: nat)
    requires Run(batch, tr, acts) && k < |acts| && acts[k].Get? && Text.Key(acts[k].name, acts[k].qtype) == key
    requires key in tr[k].cache && !DeadAt(tr[k + 1], key) && j < |tr[k].cache[key].answer|
    ensures var r := tr[k].cache[key];
            r.created <= tr[k + 1].clock && Taken(r, j, tr[k + 1].clock) == Ceil(tr[k + 1].clock - r.created)
  {
    assert StepAt(batch, tr, acts, k);
    ExactTtls(batch, tr, acts, k);
    MissMeansDead(batch, tr, acts, k, acts[k].name, acts[k].qtype);
    TypesMatch(batch, tr, acts, k, acts[k].name, acts[k].qtype);
    HitTakes(tr[k].cache[key], tr[k + 1].clock, j);
  }

  /** The step from k to k + 1 of `UnreadIsUndecayed`. */
  lemma UnreadStep(batch: int, tr: seq<State>, acts: seq<Action>, k: nat, key: string, j: nat)
    requires Run(batch, tr, acts) && k < |acts| && key in tr[k].cache && key in tr[k + 1].cache
    requires !(acts[k].Add? && acts[k].r.FormatKey() == key)
    requires !DeadAt(tr[k + 1], key) && j < |tr[k].cache[key].answer|
    requires Decay(tr, acts, k, key, j) == 0 <==> !ReadBefore(tr, acts, k, key)
    ensures Decay(tr, acts, k + 1, key, j) == 0 <==> !ReadBefore(tr, acts, k + 1, key)
  {
    if acts[k].Get? && Text.Key(acts[k].name, acts[k].qtype) == key {
      LiveReadTakes(batch, tr, acts, k, key, j);
    }
  }

  lemma SameLength(batch: int, tr: seq<State>, acts: seq<Action>, k: nat, key: string)
    requires Run(batch, tr, acts) && k < |acts| && key in tr[k + 1].cache
    requires !(acts[k].Add? && acts[k].r.FormatKey() == key)
    ensures key in tr[k].cache && |tr[k].cache[key].answer| == |tr[k + 1].cache[key].answer|
  {
    assert StepAt(batch, tr, acts, k);
    Kept(batch, tr[k], acts[k], tr[k + 1], key);
  }

  lemma {:induction false} UnreadIsUndecayed(batch: int, tr: seq<State>, acts: seq<Action>, k: nat, key: string, j: nat)
    requires Run(batch, tr, acts) && k < |tr| && key in tr[k].cache && !DeadAt(tr[k], key) && j < |tr[k].cache[key].answer|
    ensures Decay(tr, acts, k, key, j) == 0 <==> !ReadBefore(tr, acts, k, key)
  {
    if k > 0 && !(acts[k - 1].Add? && acts[k - 1].r.FormatKey() == key) {
      SameLength(batch, tr, acts, k - 1, key);
      if DeadAt(tr[k - 1], key) {
        DeadStep(batch, tr, acts, k - 1, key);
      }
      UnreadIsUndecayed(batch, tr, acts, k - 1, key, j);
      UnreadStep(batch, tr, acts, k - 1, key, j);
    }
  }

  /** A hit is meant to give the client the accurate TTL, the original minus the elapsed
      seconds. It does exactly when the entry was not read before. */
  lemma AccurateIffUnread(batch: int, tr: seq<State>, acts: seq<Action>, k: nat, name: string, qtype: nat, r: Response, j: nat)
    requires Run(batch, tr, acts) && k < |acts| && acts[k] == Get(name, qtype)
    requires Lookup(tr[k].cache, name, qtype, tr[k + 1].clock).0 == Some(r) && j < |r.answer|
    ensures var o := LastAdded(acts, k, name, qtype);
            && o.Some? && |o.value.answer| == |r.answer| && r.created <= tr[k + 1].clock
            && (r.answer[j].ttl == o.value.answer[j].ttl - Ceil(tr[k + 1].clock - r.created)
                <==> !ReadBefore(tr, acts, k, Text.Key(name, qtype)))
  {
    var key, now := Text.Key(name, qtype), tr[k + 1].clock;
    assert StepAt(batch, tr, acts, k);
    ExactTtls(batch, tr, acts, k);
    TypesMatch(batch, tr, acts, k, name, qtype);
    var s := tr[k].cache[key];
    HitTtls(s.created, s.answer, now, j);
    if DeadAt(tr[k], key) {
      DeadIsRefused(batch, tr, acts, k, key);
    }
    UnreadIsUndecayed(batch, tr, acts, k, key, j);
  }

  lemma WalkOne(created: Time, rr: RR, now: Time)
    requires created <= now && Survives(rr.ttl, now - created)
    ensures Ceil(now - created) <= rr.ttl
    ensures Walk(created, [rr], now) == ([rr.(ttl := rr.ttl - Ceil(now - created))], true)
  {
    SurvivesRefresh(created, rr.ttl, now);
    RefreshSubtracts(created, rr.ttl, now);
    var rr' := rr.(ttl := Refresh(created, rr.ttl, now));
    assert [rr][1..] == [] && [rr'] + [] == [rr'];
    assert Walk(created, [rr], now).1;
  }

  /** The second of two reads, after 10 s and 20 s, reports 70 of 100 s where 80 are left. */
  lemma SecondReadInaccurate() returns (tr: seq<State>, acts: seq<Action>)
    ensures |tr| == 4 && Run(1, tr, acts) && acts[1] == acts[2] == Get("a", 1)
    ensures LastAdded(acts, 2, "a", 1) == Some(Response("a", 1, "", 0, [RR("x", 100)])) && tr[3].clock == 20_000_000_000
    ensures Lookup(tr[2].cache, "a", 1, tr[3].clock).0 == Some(Response("a", 1, "", 0, [RR("x", 70)]))
  {
    var key := Text.Key("a", 1);
    var r := Response("a", 1, "", 0, [RR("x", 100)]);
    var s0 := State(0, map[], multiset{}, {}, false, multiset{}, multiset{}, multiset{});
    var s1 := s0.(cache := map[key := r]);
    WalkOne(0, RR("x", 100), 10 * SECOND);
    var s2 := s1.(clock := 10 * SECOND, cache := map[key := r.(answer := [RR("x", 90)])]);
    WalkOne(0, RR("x", 90), 20 * SECOND);
    var s3 := s2.(clock := 20 * SECOND, cache := map[key := r.(answer := [RR("x", 70)])]);
    tr, acts := [s0, s1, s2, s3], [Add(r), Get("a", 1), Get("a", 1)];
    assert StepAt(1, tr, acts, 0);
    assert StepAt(1, tr, acts, 1);
    assert StepAt(1, tr, acts, 2);
  }
}
