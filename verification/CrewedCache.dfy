/** A record cache together with its cleaning crew. The object keeps a ghost history of the
    transition system and every operation extends it by one step, so what `CacheSystem` proves
    of runs holds of the mutable records. */
module CrewedCache {
  import opened PoolSpec
  import opened CacheSpec
  import opened CacheSystem
  import opened RecordCache
  import Text

  function SentKeys(sends: seq<Message>): seq<string> {
    seq(|sends|, i requires 0 <= i < |sends| => sends[i].FormatKey())
  }

  lemma SentAppend(sends: seq<Message>, more: seq<Message>)
    ensures multiset(SentKeys(sends + more)) == multiset(SentKeys(sends)) + multiset(SentKeys(more))
  {
    assert SentKeys(sends + more) == SentKeys(sends) + SentKeys(more);
  }

  lemma SentOne(sends: seq<Message>, r: Message)
    ensures multiset(SentKeys(sends + [r])) == multiset(SentKeys(sends)) + multiset{r.FormatKey()}
  {
    SentAppend(sends, [r]);
    assert SentKeys([r]) == [r.FormatKey()];
  }

  lemma SentEntries(c: RecordCache, evicted: seq<Message>, keys: seq<string>)
    requires c.Valid() && c.EntriesOf(evicted, keys)
    ensures SentKeys(evicted) == keys
  {
  }

  lemma SentTaken(sends: seq<Message>, k: nat)
    requires k < |sends|
    ensures sends[k].FormatKey() in multiset(SentKeys(sends))
    ensures multiset(SentKeys(sends[..k] + sends[k + 1..])) == multiset(SentKeys(sends)) - multiset{sends[k].FormatKey()}
  {
    hide Text.Key;
    var keys := SentKeys(sends);
    assert SentKeys(sends[..k] + sends[k + 1..]) == keys[..k] + keys[k + 1..];
    assert keys == keys[..k] + [keys[k]] + keys[k + 1..];
    assert multiset(keys) == multiset(keys[..k]) + multiset{keys[k]} + multiset(keys[k + 1..]);
    assert keys[k] in multiset(keys);
  }

  /** Only the actions before k matter for the response last added. */
  lemma LastAddedPrefix(acts: seq<Action>, act: Action, k: nat, name: string, qtype: nat)
    requires k <= |acts|
    ensures LastAdded(acts + [act], k, name, qtype) == LastAdded(acts, k, name, qtype)
  {
    if k > 0 {
      LastAddedPrefix(acts, act, k - 1, name, qtype);
    }
  }

  /** A response that was looked up is the one last added, but for TTLs that have come down by
      the seconds since. */
  ghost predicate Reports(o: Option<Response>, r: Response, now: Time) {
    && o.Some? && r.created <= now && r == o.value.(answer := r.answer) && |r.answer| == |o.value.answer|
    && forall j :: 0 <= j < |r.answer| ==>
         && r.answer[j].data == o.value.answer[j].data
         && r.answer[j].ttl + Ceil(now - r.created) <= o.value.answer[j].ttl
         && !Expired(r.created, r.answer[j].ttl, now)
  }

  lemma HitReports(batch: int, tr: seq<State>, acts: seq<Action>, name: string, qtype: nat, s: State, r: Response)
    requires Run(batch, tr, acts) && Next(batch, tr[|acts|], CacheSystem.Get(name, qtype), s)
    requires Lookup(tr[|acts|].cache, name, qtype, s.clock).0 == Some(r)
    ensures Reports(LastAdded(acts, |acts|, name, qtype), r, s.clock)
  {
    var act := CacheSystem.Get(name, qtype);
    ExtendRun(batch, tr, acts, act, s);
    HitReturnsLastAdded(batch, tr + [s], acts + [act], |acts|, name, qtype, r);
    LastAddedPrefix(acts, act, |acts|, name, qtype);
  }

  /** The state a read leads to. */
  ghost function AfterGet(s: State, name: string, qtype: nat, now: Time): State {
    var (_, cache, evict) := Lookup(s.cache, name, qtype, now);
    CacheSystem.Evict(s.(clock := now), if evict then multiset{Text.Key(name, qtype)} else multiset{}).(cache := cache)
  }

  lemma ReceiveStep(batch: int, s: State, r: Message, now: Time)
    requires s.clock <= now && r.FormatKey() in s.sends
    ensures var s' := React(batch, s.(clock := now), Evicted(r));
            Next(batch, s, CacheSystem.Receive(r.FormatKey()), s') && s'.clock == now
  {
    ReactIsStep(batch, s.(clock := now), Evicted(r));
  }

  /** A run so far. */
  datatype History = History(tr: seq<State>, acts: seq<Action>)
  {
    ghost predicate IsRun(batch: int) {
      Run(batch, tr, acts)
    }

    function Last(): State
      requires |tr| == |acts| + 1
    {
      tr[|acts|]
    }

    function Then(act: Action, s: State): History {
      History(tr + [s], acts + [act])
    }
  }

  class CrewedCache {
    const recordCache: RecordCache
    const trashMan: TrashMan

    constructor (evictionBatchSize: int)
      ensures fresh(recordCache) && fresh(trashMan) && trashMan.evictionBatchSize == evictionBatchSize
      ensures forall start :: Follows(History([State(start, map[], multiset{}, {}, false, multiset{}, multiset{}, multiset{})], []))
    {
      var cache := new RecordCache();
      recordCache := cache;
      trashMan := new TrashMan(cache, evictionBatchSize);
    }

    /** The objects are in this state. */
    ghost predicate Current(s: State)
      reads trashMan, recordCache, Records(recordCache.cache)
    {
      && trashMan.recordCache == recordCache && trashMan.Valid() && trashMan.Mirrors(s)
      && multiset(SentKeys(recordCache.sends)) == s.sends
    }

    ghost predicate Follows(h: History)
      reads trashMan, recordCache, Records(recordCache.cache)
    {
      h.IsRun(trashMan.evictionBatchSize) && Current(h.Last())
    }

    /** The objects have moved on by one step of the run. */
    lemma Extend(h: History, act: Action, s: State)
      requires h.IsRun(trashMan.evictionBatchSize) && Next(trashMan.evictionBatchSize, h.Last(), act, s) && Current(s)
      ensures Follows(h.Then(act, s)) && h.Then(act, s).acts == h.acts + [act] && h.Then(act, s).Last() == s
    {
      ExtendRun(trashMan.evictionBatchSize, h.tr, h.acts, act, s);
    }

    /** The read, up to the history. */
    method Look(name: string, qtype: nat, now: Time, ghost s: State) returns (r: Option<Message>)
      requires Current(s)
      modifies recordCache`sends, Records(recordCache.cache)
      ensures Current(AfterGet(s, name, qtype, now))
      ensures match Lookup(s.cache, name, qtype, now).0
              case None => r.None?
              case Some(v) => r.Some? && r.value.View() == v
    {
      ghost var sends := recordCache.sends;
      r := recordCache.Get(name, qtype, now);
      if Lookup(s.cache, name, qtype, now).2 {
        SentOne(sends, recordCache.cache[Text.Key(name, qtype)]);
      } else {
        assert recordCache.sends == sends;
      }
    }

    /** A hit is the response last added for the name and type. */
    method Get(name: string, qtype: nat, now: Time, ghost h: History) returns (r: Option<Message>, ghost h': History)
      requires Follows(h) && h.Last().clock <= now
      modifies recordCache`sends, Records(recordCache.cache)
      ensures h' == h.Then(CacheSystem.Get(name, qtype), AfterGet(h.Last(), name, qtype, now)) && Follows(h')
      ensures r.Some? ==> Reports(LastAdded(h.acts, |h.acts|, name, qtype), r.value.View(), now)
      ensures r.None? <==> Lookup(h.Last().cache, name, qtype, now).0.None?
    {
      ghost var s := AfterGet(h.Last(), name, qtype, now);
      r := Look(name, qtype, now, h.Last());
      if r.Some? {
        HitReports(trashMan.evictionBatchSize, h.tr, h.acts, name, qtype, s, r.value.View());
      }
      Extend(h, CacheSystem.Get(name, qtype), s);
      h' := h.Then(CacheSystem.Get(name, qtype), s);
    }

    /** A response may share records with the one it replaces, and with no other. */
    method Add(response: Message, now: Time, ghost h: History) returns (ghost h': History)
      requires Follows(h) && h.Last().clock <= now && response.created <= now
      requires AllDifferent(response.answer)
      requires forall rr | rr in response.answer :: rr !in Records(recordCache.cache - {response.FormatKey()})
      modifies recordCache`cache
      ensures Follows(h') && h'.acts == h.acts + [CacheSystem.Add(response.View())] && h'.Last().clock == now
    {
      ghost var s := h.Last();
      recordCache.Add(response);
      ghost var s' := s.(clock := now, cache := s.cache[response.FormatKey() := response.View()]);
      assert Current(s');
      Extend(h, CacheSystem.Add(response.View()), s');
      h' := h.Then(CacheSystem.Add(response.View()), s');
    }

    method Remove(response: Message, now: Time, ghost h: History) returns (ghost h': History)
      requires Follows(h) && h.Last().clock <= now
      modifies recordCache`cache
      ensures Follows(h') && h'.acts == h.acts + [CacheSystem.Remove(response.View())] && h'.Last().clock == now
    {
      hide Text.Key;
      ghost var s, sends := h.Last(), recordCache.sends;
      ViewsRemove(recordCache.cache, {response.FormatKey()});
      recordCache.Remove(response);
      ghost var s' := s.(clock := now, cache := s.cache - {response.FormatKey()});
      assert Views(recordCache.cache) == s'.cache;
      assert trashMan.Mirrors(s') && recordCache.sends == sends;
      Extend(h, CacheSystem.Remove(response.View()), s');
      h' := h.Then(CacheSystem.Remove(response.View()), s');
    }

    /** The sweep, up to the history. */
    method Sweep(now: Time, ghost s: State) returns (deleted: nat)
      requires Current(s)
      modifies recordCache`sends
      ensures Current(CacheSystem.Evict(s, multiset(DeadKeys(s.cache, now))))
      ensures deleted == |DeadKeys(s.cache, now)|
    {
      hide Text.Key;
      ghost var sends, dead := recordCache.sends, DeadKeys(s.cache, now);
      ghost var evicted, keys;
      deleted, evicted, keys := recordCache.Clean(now);
      assert Views(recordCache.cache) == s.cache;
      SentEntries(recordCache, evicted, keys);
      SentAppend(sends, evicted);
      assert multiset(keys) == multiset(dead);
      assert |multiset(keys)| == |keys| && |multiset(dead)| == |dead|;
      assert trashMan.Mirrors(CacheSystem.Evict(s, multiset(dead)));
    }

    /** The janitor's sweep evicts every response that holds an expired record. */
    method Clean(now: Time, ghost h: History) returns (deleted: nat, ghost h': History)
      requires Follows(h) && h.Last().clock <= now
      modifies recordCache`sends
      ensures Follows(h') && h'.acts == h.acts + [CacheSystem.Clean] && h'.Last().clock == now
      ensures deleted == |DeadKeys(h.Last().cache, now)|
    {
      ghost var s := h.Last().(clock := now);
      deleted := Sweep(now, s);
      ghost var s' := CacheSystem.Evict(s, multiset(DeadKeys(s.cache, now)));
      Extend(h, CacheSystem.Clean, s');
      h' := h.Then(CacheSystem.Clean, s');
    }

    /** A goroutine that waits to evict gets its response through. */
    method TakeSend(k: nat, ghost s: State) returns (r: Message)
      requires Current(s) && k < |recordCache.sends|
      modifies recordCache`sends
      ensures r == old(recordCache.sends[k]) && r.FormatKey() in s.sends
      ensures Current(s.(sends := s.sends - multiset{r.FormatKey()}))
    {
      hide Text.Key;
      ghost var sends := recordCache.sends;
      r := recordCache.sends[k];
      SentTaken(sends, k);
      recordCache.sends := recordCache.sends[..k] + recordCache.sends[k + 1..];
      assert recordCache.sends == sends[..k] + sends[k + 1..];
      assert Views(recordCache.cache) == s.cache;
      assert trashMan.Mirrors(s.(sends := s.sends - multiset{r.FormatKey()}));
    }

    /** The trashman's turn, up to the history. */
    method Hand(r: Message, ghost s: State)
      requires r.FormatKey() in s.sends && Current(s.(sends := s.sends - multiset{r.FormatKey()}))
      modifies recordCache`cache, trashMan`responses
      ensures Current(React(trashMan.evictionBatchSize, s, Evicted(r))) && trashMan.Bounded()
    {
      hide React;
      ghost var sends := recordCache.sends;
      ReactSends(trashMan.evictionBatchSize, s, r);
      trashMan.OnEvicted(r, s);
      assert recordCache.sends == sends;
    }

    /** One of those goroutines hands its response to the trashman. */
    method Receive(k: nat, now: Time, ghost h: History) returns (ghost h': History)
      requires Follows(h) && h.Last().clock <= now && k < |recordCache.sends|
      modifies recordCache`sends, recordCache`cache, trashMan`responses
      ensures Follows(h') && h'.acts == h.acts + [CacheSystem.Receive(old(recordCache.sends[k]).FormatKey())]
      ensures h'.Last().clock == now && trashMan.Bounded()
    {
      hide React, Next;
      ghost var s := h.Last().(clock := now);
      var r := TakeSend(k, s);
      Hand(r, s);
      ghost var s' := React(trashMan.evictionBatchSize, s, Evicted(r));
      ReceiveStep(trashMan.evictionBatchSize, h.Last(), r, now);
      Extend(h, CacheSystem.Receive(r.FormatKey()), s');
      h' := h.Then(CacheSystem.Receive(r.FormatKey()), s');
    }

    method SetPaused(p: bool, now: Time, ghost h: History) returns (ghost h': History)
      requires Follows(h) && h.Last().clock <= now
      modifies recordCache`cache, trashMan`responses, trashMan`paused
      ensures Follows(h') && h'.acts == h.acts + [CacheSystem.SetPaused(p)]
      ensures h'.Last().clock == now && trashMan.Bounded()
    {
      ghost var s := h.Last().(clock := now);
      trashMan.OnPause(p, s);
      ghost var s' := React(trashMan.evictionBatchSize, s, Pausing(p));
      assert Current(s');
      ReactIsStep(trashMan.evictionBatchSize, s, Pausing(p));
      Extend(h, CacheSystem.SetPaused(p), s');
      h' := h.Then(CacheSystem.SetPaused(p), s');
    }
  }
}
