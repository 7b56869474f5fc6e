/** What the evictions of the cache take away, and when an added response is safe from them. */
module CacheEvictions {
  import opened PoolSpec
  import opened CacheSpec
  import opened CacheSystem
  import Text

  lemma FlushDeletes(batch: int, s: State, key: string)
    requires key in s.cache
    ensures var t := FlushIfFull(s, batch);
            && (key !in t.cache <==> t.queued == {} && key in s.queued)
            && (key in t.cache ==> t.cache[key] == s.cache[key])
  {
  }

  /** A turn of the trashman deletes whatever is stored under the keys it has queued, be it the
      response that was evicted or a newer one, exactly when it empties its queue. */
  lemma DeletesByKey(batch: int, s: State, act: Action, s': State, key: string)
    requires Next(batch, s, act, s') && (act.Receive? || act.SetPaused?) && key in s.cache
    ensures key !in s'.cache <==> s'.queued == {} && (key in s.queued || act == Receive(key))
    ensures key in s'.cache ==> s'.cache[key] == s.cache[key]
  {
    hide Text.Key, FlushIfFull;
    match act
    case Receive(added) =>
      var t := Enqueue(s.(clock := s'.clock, sends := s.sends - multiset{added}), added);
      FlushDeletes(batch, t, key);
      assert t.queued == s.queued + {added} && t.cache == s.cache && s' == FlushIfFull(t, batch);
    case SetPaused(p) => FlushDeletes(batch, s.(clock := s'.clock, paused := p), key);
  }

  /** The flush that takes the newer entry away. */
  lemma LoseStep(key: string, newer: Response, now: Time)
    requires newer.FormatKey() == key
    ensures var s := State(now, map[key := newer], multiset{key}, {}, false, multiset{key}, multiset{}, multiset{});
            Next(1, s, Receive(key), s.(cache := map[], sends := multiset{}, flushed := multiset{key}))
  {
    var s := State(now, map[key := newer], multiset{key}, {}, false, multiset{key}, multiset{}, multiset{});
    var t := Enqueue(s.(sends := s.sends - multiset{key}), key);
    assert t.queued == {key} && t.sends == multiset{};
    assert s.cache - {key} == map[] && multiset({key}) == multiset{key};
  }

  /** The read that evicts a dead entry. */
  lemma MissStep(older: Response, now: Time)
    requires older.created <= now && Dead(older, now)
    ensures var key := older.FormatKey();
            var s := State(older.created, map[key := older], multiset{}, {}, false, multiset{}, multiset{}, multiset{});
            var answer := Walk(older.created, older.answer, now).0;
            Next(1, s, Get(older.name, older.qtype),
                 State(now, map[key := older.(answer := answer)], multiset{key}, {}, false, multiset{key}, multiset{}, multiset{}))
  {
    MissLeavesDead(older, now);
    var key := older.FormatKey();
    assert map[key := older][key := older.(answer := Walk(older.created, older.answer, now).0)]
        == map[key := older.(answer := Walk(older.created, older.answer, now).0)];
  }

  /** Whatever response is added while the eviction of its dead predecessor is under way is
      lost, however long it had to live. */
  lemma FreshResponseLost(older: Response, newer: Response, now: Time) returns (tr: seq<State>, acts: seq<Action>)
    requires older.FormatKey() == newer.FormatKey()
    requires older.created <= now && Dead(older, now) && newer.created <= now
    ensures |tr| == 5 && Run(1, tr, acts)
    ensures acts == [Add(older), Get(older.name, older.qtype), Add(newer), Receive(newer.FormatKey())]
    ensures tr[3].clock == now && tr[3].cache == map[newer.FormatKey() := newer] && tr[4].cache == map[]
  {
    hide Text.Key;
    var key := older.FormatKey();
    var s0 := State(older.created, map[], multiset{}, {}, false, multiset{}, multiset{}, multiset{});
    var s1 := s0.(cache := map[key := older]);
    var left := older.(answer := Walk(older.created, older.answer, now).0);
    var s2 := State(now, map[key := left], multiset{key}, {}, false, multiset{key}, multiset{}, multiset{});
    var s3 := s2.(cache := map[key := newer]);
    var s4 := s3.(cache := map[], sends := multiset{}, flushed := multiset{key});
    tr, acts := [s0, s1, s2, s3, s4], [Add(older), Get(older.name, older.qtype), Add(newer), Receive(key)];
    assert StepAt(1, tr, acts, 0);
    assert StepAt(1, tr, acts, 1) by {
      MissStep(older, now);
    }
    assert StepAt(1, tr, acts, 2) by {
      assert map[key := left][key := newer] == map[key := newer];
    }
    assert StepAt(1, tr, acts, 3) by {
      LoseStep(key, newer, now);
    }
  }

  // ------------------------------------------------ when an added response lasts

  /** An eviction of this key is on its way to the cache. */
  predicate Pending(s: State, key: string) {
    key in s.sends || key in s.queued
  }

  /** The run goes on, and meanwhile nobody evicts or removes what is stored under the key. */
  ghost predicate Continues(batch: int, tr: seq<State>, acts: seq<Action>, tr': seq<State>, acts': seq<Action>, key: string) {
    && |tr| == |acts| + 1 && tr <= tr' && acts <= acts' && Run(batch, tr', acts')
    && tr'[|acts'|].evicted[key] == tr[|acts|].evicted[key]
    && forall i | |acts| <= i < |acts'| :: acts'[i].Remove? ==> acts'[i].r.FormatKey() != key
  }

  lemma ContinuesOn(batch: int, tr: seq<State>, acts: seq<Action>, tr1: seq<State>, acts1: seq<Action>,
                    tr2: seq<State>, acts2: seq<Action>, key: string)
    requires Continues(batch, tr, acts, tr1, acts1, key) && Continues(batch, tr1, acts1, tr2, acts2, key)
    ensures Continues(batch, tr, acts, tr2, acts2, key)
  {
    forall i | |acts| <= i < |acts2| ensures acts2[i].Remove? ==> acts2[i].r.FormatKey() != key {
      if i < |acts1| {
        assert acts2[i] == acts1[i];
      }
    }
  }

  lemma ContinuesBy(batch: int, tr: seq<State>, acts: seq<Action>, act: Action, s: State, key: string)
    requires Run(batch, tr, acts) && Next(batch, tr[|acts|], act, s) && !act.Remove?
    requires s.evicted[key] == tr[|acts|].evicted[key]
    ensures Continues(batch, tr, acts, tr + [s], acts + [act], key)
  {
    ExtendRun(batch, tr, acts, act, s);
  }

  lemma {:induction false} EvictedGrows(batch: int, tr: seq<State>, acts: seq<Action>, j: nat, k: nat, key: string)
    requires Run(batch, tr, acts) && j <= k < |tr|
    ensures tr[j].evicted[key] <= tr[k].evicted[key]
    decreases k
  {
    if j < k {
      EvictedGrows(batch, tr, acts, j, k - 1, key);
      assert StepAt(batch, tr, acts, k - 1);
    }
  }

  lemma UnpendingStep(batch: int, s: State, act: Action, s': State, key: string)
    requires key in s.cache && !Pending(s, key) && Next(batch, s, act, s')
    requires !(act.Remove? && act.r.FormatKey() == key) && s'.evicted[key] == s.evicted[key]
    ensures key in s'.cache && !Pending(s', key)
  {
    hide Text.Key;
    match act
    case Receive(other) => DeletesByKey(batch, s, act, s', key);
    case Clean => assert key !in DeadKeys(s.cache, s'.clock);
    case _ =>
  }

  /** Without an eviction on its way, what is stored under a key stays until it is evicted or
      removed itself. */
  lemma {:induction false} StaysUnlessEvicted(batch: int, tr: seq<State>, acts: seq<Action>, k: nat, m: nat, key: string)
    requires Run(batch, tr, acts) && k <= m < |tr| && key in tr[k].cache && !Pending(tr[k], key)
    requires tr[m].evicted[key] == tr[k].evicted[key]
    requires forall i | k <= i < m :: acts[i].Remove? ==> acts[i].r.FormatKey() != key
    ensures key in tr[m].cache && !Pending(tr[m], key)
    decreases m
  {
    if k < m {
      EvictedGrows(batch, tr, acts, k, m - 1, key);
      EvictedGrows(batch, tr, acts, m - 1, m, key);
      StaysUnlessEvicted(batch, tr, acts, k, m - 1, key);
      assert StepAt(batch, tr, acts, m - 1);
      UnpendingStep(batch, tr[m - 1], acts[m - 1], tr[m], key);
    }
  }

  lemma {:induction false} Longest(keys: set<string>) returns (n: nat)
    ensures forall key | key in keys :: |key| <= n
  {
    if keys == {} {
      n := 0;
    } else {
      var key :| key in keys;
      n := Longest(keys - {key});
      n := if n < |key| then |key| else n;
    }
  }

  lemma UnusedName(keys: set<string>) returns (name: string)
    ensures Text.Key(name, 0) !in keys
  {
    var n := Longest(keys);
    name := seq(n, _ => 'a');
    assert |Text.Key(name, 0)| > n;
  }

  /** A response that is dead on arrival. */
  function Stillborn(name: string, now: Time): Response {
    Response(name, 0, "", now - 1, [RR("", 0)])
  }

  lemma StillbornIsDead(name: string, now: Time)
    ensures Walk(now - 1, Stillborn(name, now).answer, now) == (Stillborn(name, now).answer, false)
  {
    assert [RR("", 0)] + Stillborn(name, now).answer[1..] == [RR("", 0)];
  }

  /** One more response is queued: some other question is answered by a response that has
      expired already, asked again, and its eviction arrives. */
  lemma QueueOneMore(batch: int, tr: seq<State>, acts: seq<Action>, key: string)
    returns (tr': seq<State>, acts': seq<Action>)
    requires Run(batch, tr, acts) && key in tr[|acts|].queued && !tr[|acts|].paused
    ensures Continues(batch, tr, acts, tr', acts', key) && !tr'[|acts'|].paused
    ensures || key !in tr'[|acts'|].cache
            || (key in tr'[|acts'|].queued && |tr'[|acts'|].queued| == |tr[|acts|].queued| + 1)
  {
    var s := tr[|acts|];
    var name := UnusedName(s.queued);
    var other, r := Text.Key(name, 0), Stillborn(name, s.clock);
    StillbornIsDead(name, s.clock);
    var s1 := s.(cache := s.cache[other := r]);
    ContinuesBy(batch, tr, acts, Add(r), s1, key);
    tr', acts' := tr + [s1], acts + [Add(r)];
    var s2 := Evict(s1, multiset{other});
    assert Next(batch, s1, Get(name, 0), s2) by {
      assert s1.cache[other := r] == s1.cache;
    }
    ContinuesBy(batch, tr', acts', Get(name, 0), s2, key);
    ContinuesOn(batch, tr, acts, tr', acts', tr' + [s2], acts' + [Get(name, 0)], key);
    tr', acts' := tr' + [s2], acts' + [Get(name, 0)];
    var s3 := FlushIfFull(Enqueue(s2.(sends := s2.sends - multiset{other}), other), batch);
    ContinuesBy(batch, tr', acts', Receive(other), s3, key);
    ContinuesOn(batch, tr, acts, tr', acts', tr' + [s3], acts' + [Receive(other)], key);
    tr', acts' := tr' + [s3], acts' + [Receive(other)];
  }

  lemma {:induction false} QueueUntilFull(batch: int, tr: seq<State>, acts: seq<Action>, key: string)
    returns (tr': seq<State>, acts': seq<Action>)
    requires Run(batch, tr, acts) && key in tr[|acts|].queued && !tr[|acts|].paused
    ensures Continues(batch, tr, acts, tr', acts', key) && key !in tr'[|acts'|].cache
    decreases batch - |tr[|acts|].queued|
  {
    TrashmanAccounts(batch, tr, acts, |acts|);
    assert |tr[|acts|].queued| > 0;
    var tr1, acts1 := QueueOneMore(batch, tr, acts, key);
    tr', acts' := tr1, acts1;
    if key in tr1[|acts1|].cache {
      tr', acts' := QueueUntilFull(batch, tr1, acts1, key);
      ContinuesOn(batch, tr, acts, tr1, acts1, tr', acts', key);
    }
  }

  /** From any reachable state with an eviction of the key on its way, and for any batch size,
      the run can go on so that the key is deleted without having been evicted again. */
  lemma PendingEvictionLoses(batch: int, tr: seq<State>, acts: seq<Action>, key: string)
    returns (tr': seq<State>, acts': seq<Action>)
    requires Run(batch, tr, acts) && Pending(tr[|acts|], key)
    ensures Continues(batch, tr, acts, tr', acts', key) && key !in tr'[|acts'|].cache
  {
    var s := FlushIfFull(tr[|acts|].(paused := false), batch);
    ContinuesBy(batch, tr, acts, SetPaused(false), s, key);
    tr', acts' := tr + [s], acts + [SetPaused(false)];
    if key in s.cache && key !in s.queued {
      var s2 := FlushIfFull(Enqueue(s.(sends := s.sends - multiset{key}), key), batch);
      ContinuesBy(batch, tr', acts', Receive(key), s2, key);
      ContinuesOn(batch, tr, acts, tr', acts', tr' + [s2], acts' + [Receive(key)], key);
      tr', acts' := tr' + [s2], acts' + [Receive(key)];
    }
    if key in tr'[|acts'|].cache {
      var tr2, acts2 := QueueUntilFull(batch, tr', acts', key);
      ContinuesOn(batch, tr, acts, tr', acts', tr2, acts2, key);
      tr', acts' := tr2, acts2;
    }
  }

  /** The same response, but for TTLs that may have come down. */
  ghost predicate Lowered(now: Response, added: Response) {
    && now == added.(answer := now.answer) && |now.answer| == |added.answer|
    && forall j :: 0 <= j < |now.answer| ==>
         now.answer[j].data == added.answer[j].data && now.answer[j].ttl <= added.answer[j].ttl
  }

  /** No action from k on adds a response under this key. */
  ghost predicate NoneAdded(acts: seq<Action>, k: nat, key: string) {
    forall i | k <= i < |acts| :: acts[i].Add? ==> acts[i].r.FormatKey() != key
  }

  lemma {:induction false} LastAddedStays(acts: seq<Action>, k: nat, m: nat, r: Response)
    requires 0 < k <= m <= |acts| && acts[k - 1] == Add(r) && NoneAdded(acts, k, r.FormatKey())
    ensures LastAdded(acts, m, r.name, r.qtype) == Some(r)
  {
    if k < m {
      LastAddedStays(acts, k, m - 1, r);
    }
  }

  lemma StoredIsAdded(batch: int, tr: seq<State>, acts: seq<Action>, k: nat, r: Response)
    requires Run(batch, tr, acts) && 0 < k <= |acts| && acts[k - 1] == Add(r)
    requires r.FormatKey() in tr[|acts|].cache && NoneAdded(acts, k, r.FormatKey())
    ensures Lowered(tr[|acts|].cache[r.FormatKey()], r)
  {
    hide StepAt;
    var now := tr[|acts|].cache[r.FormatKey()];
    ExactTtls(batch, tr, acts, |acts|);
    Text.KeyInjective(r.name, r.qtype, now.name, now.qtype);
    LastAddedStays(acts, k, |acts|, r);
    assert Descends(tr, acts, |acts|, r.FormatKey(), now);
  }

  /** However the run goes on, there is a response under the key until it is evicted or removed,
      and it is this one until another is added. */
  ghost predicate Lasts(batch: int, tr: seq<State>, acts: seq<Action>, r: Response) {
    forall tr': seq<State>, acts': seq<Action> :: Continues(batch, tr, acts, tr', acts', r.FormatKey()) ==>
      && r.FormatKey() in tr'[|acts'|].cache
      && (NoneAdded(acts', |acts|, r.FormatKey()) ==> Lowered(tr'[|acts'|].cache[r.FormatKey()], r))
  }

  /** An added response is meant to stay until it is evicted or removed itself. It is sure to
      exactly when no eviction under its key is on its way at the moment of the call. */
  lemma AddedLastsIffNotPending(batch: int, tr: seq<State>, acts: seq<Action>, r: Response)
    requires Run(batch, tr, acts) && |acts| > 0 && acts[|acts| - 1] == Add(r)
    ensures Lasts(batch, tr, acts, r) <==> !Pending(tr[|acts| - 1], r.FormatKey())
  {
    var k, key := |acts|, r.FormatKey();
    assert StepAt(batch, tr, acts, k - 1);
    if Pending(tr[k], key) {
      var tr', acts' := PendingEvictionLoses(batch, tr, acts, key);
    } else {
      forall tr': seq<State>, acts': seq<Action> | Continues(batch, tr, acts, tr', acts', key)
        ensures key in tr'[|acts'|].cache
        ensures NoneAdded(acts', k, key) ==> Lowered(tr'[|acts'|].cache[key], r)
      {
        assert tr'[k] == tr[k] && acts'[k - 1] == acts[k - 1];
        StaysUnlessEvicted(batch, tr', acts', k, |acts'|, key);
        if NoneAdded(acts', k, key) {
          StoredIsAdded(batch, tr', acts', k, r);
        }
      }
    }
  }
}
