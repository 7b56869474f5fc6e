/** What each step does exactly to entries, evictions and the trashman's queue, and what is left of
    it over a whole run: only dead entries are evicted, and only full batches are flushed. */
module CacheLedger {
  import opened PoolSpec
  import opened CacheSpec
  import opened CacheSystem
  import CacheEvictions
  import Text

  // -------------------------------------------------------------- evictions

  /** Does this action look at the entry under this key for expired records? */
  predicate Looks(act: Action, key: string) {
    act == Clean || (act.Get? && Text.Key(act.name, act.qtype) == key)
  }

  lemma CleanEvicts(batch: int, s: State, s': State, key: string)
    requires Next(batch, s, Clean, s')
    ensures s'.evicted[key] == s.evicted[key] + if DeadAt(s', key) then 1 else 0
    ensures s'.sends[key] == s.sends[key] + if DeadAt(s', key) then 1 else 0
  {
    hide Dead;
    assert key in DeadKeys(s.cache, s'.clock) <==> DeadAt(s', key);
  }

  lemma GetEvicts(batch: int, s: State, name: string, qtype: nat, s': State, key: string)
    requires Next(batch, s, Get(name, qtype), s')
    ensures var evicts := Lookup(s.cache, name, qtype, s'.clock).2 && Text.Key(name, qtype) == key;
            && s'.evicted[key] == s.evicted[key] + (if evicts then 1 else 0)
            && s'.sends[key] == s.sends[key] + if evicts then 1 else 0
  {
    hide Lookup, Text.Key;
  }

  lemma LookupEvicts(cache: map<string, Response>, name: string, qtype: nat, now: Time)
    ensures var (r, _, evicts) := Lookup(cache, name, qtype, now);
            (evicts ==> Text.Key(name, qtype) in cache)
            && (Text.Key(name, qtype) in cache && cache[Text.Key(name, qtype)].qtype == qtype ==> (evicts <==> r.None?))
  {
    hide Walk;
  }

  /** A look evicts what it finds exactly when it leaves an expired entry behind, once; no other
      action evicts. So a hit evicts nothing, and the cleaner spares every live entry. */
  lemma EvictsIffDead(batch: int, tr: seq<State>, acts: seq<Action>, k: nat, key: string)
    requires Run(batch, tr, acts) && k < |acts|
    ensures var n := if Looks(acts[k], key) && DeadAt(tr[k + 1], key) then 1 else 0;
            && tr[k + 1].evicted[key] == tr[k].evicted[key] + n
            && (Looks(acts[k], key) ==> tr[k + 1].sends[key] == tr[k].sends[key] + n)
  {
    hide Dead, Walk, Text.Key;
    assert StepAt(batch, tr, acts, k);
    match acts[k]
    case Clean => CleanEvicts(batch, tr[k], tr[k + 1], key);
    case Get(name, qtype) => GetEvictsIffDead(batch, tr, acts, k, key);
    case _ =>
  }

  lemma GetEvictsIffDead(batch: int, tr: seq<State>, acts: seq<Action>, k: nat, key: string)
    requires Run(batch, tr, acts) && k < |acts| && acts[k].Get?
    ensures var n := if Looks(acts[k], key) && DeadAt(tr[k + 1], key) then 1 else 0;
            && tr[k + 1].evicted[key] == tr[k].evicted[key] + n
            && (Looks(acts[k], key) ==> tr[k + 1].sends[key] == tr[k].sends[key] + n)
  {
    hide Dead, Walk, Text.Key, Lookup;
    var name, qtype := acts[k].name, acts[k].qtype;
    assert StepAt(batch, tr, acts, k);
    GetEvicts(batch, tr[k], name, qtype, tr[k + 1], key);
    LookupEvicts(tr[k].cache, name, qtype, tr[k + 1].clock);
    if Text.Key(name, qtype) == key {
      if key in tr[k].cache {
        TypesMatch(batch, tr, acts, k, name, qtype);
        MissMeansDead(batch, tr, acts, k, name, qtype);
      } else {
        AbsentStays(batch, tr[k], name, qtype, tr[k + 1]);
      }
    }
  }

  lemma AbsentStays(batch: int, s: State, name: string, qtype: nat, s': State)
    requires Next(batch, s, Get(name, qtype), s') && Text.Key(name, qtype) !in s.cache
    ensures Text.Key(name, qtype) !in s'.cache
  {
    hide Text.Key;
  }

  /** How often the entry under a key was found dead. */
  ghost function DeadLooks(tr: seq<State>, acts: seq<Action>, k: nat, key: string): nat
    requires k <= |acts| < |tr|
  {
    if k == 0 then 0
    else DeadLooks(tr, acts, k - 1, key) + if Looks(acts[k - 1], key) && DeadAt(tr[k], key) then 1 else 0
  }

  /** Over any run a key was evicted as often as its entry was found dead. */
  lemma {:induction false} EvictionsCounted(batch: int, tr: seq<State>, acts: seq<Action>, k: nat, key: string)
    requires Run(batch, tr, acts) && k < |tr|
    ensures tr[k].evicted[key] == DeadLooks(tr, acts, k, key)
  {
    hide Looks, DeadAt, StepAt;
    if k > 0 {
      EvictionsCounted(batch, tr, acts, k - 1, key);
      EvictsIffDead(batch, tr, acts, k - 1, key);
    }
  }

  // ----------------------------------------------------------- the trashman

  /** The responses that wait when the trashman decides about a flush, and whether it is paused. */
  function Waiting(s: State, act: Action): set<string> {
    s.queued + if act.Receive? then {act.key} else {}
  }

  function PausedAfter(s: State, act: Action): bool {
    if act.SetPaused? then act.p else s.paused
  }

  lemma FlushLaw(batch: int, s: State)
    ensures var t := FlushIfFull(s, batch);
            && t.paused == s.paused
            && if |s.queued| >= batch && !s.paused then
                 t.queued == {} && t.cache == s.cache - s.queued && t.flushed == s.flushed + multiset(s.queued)
               else t.queued == s.queued && t.cache == s.cache && t.flushed == s.flushed
  {
  }

  lemma EnqueueLaw(s: State, key: string)
    ensures var t := Enqueue(s, key);
            t.queued == s.queued + {key} && t.paused == s.paused && t.cache == s.cache && t.flushed == s.flushed
  {
  }

  /** A turn of the trashman flushes exactly when it is not paused and a full batch waits, and then
      all that waits goes, and nothing else. */
  lemma TurnFlushesIff(batch: int, s: State, act: Action, s': State)
    requires Next(batch, s, act, s') && (act.Receive? || act.SetPaused?)
    ensures s'.paused == PausedAfter(s, act)
    ensures if !s'.paused && |Waiting(s, act)| >= batch then
              && s'.queued == {} && s'.cache == s.cache - Waiting(s, act)
              && s'.flushed == s.flushed + multiset(Waiting(s, act))
            else s'.queued == Waiting(s, act) && s'.cache == s.cache && s'.flushed == s.flushed
  {
    hide FlushIfFull, Enqueue;
    match act
    case Receive(key) =>
      var t := s.(clock := s'.clock, sends := s.sends - multiset{key});
      EnqueueLaw(t, key);
      FlushLaw(batch, Enqueue(t, key));
    case SetPaused(p) =>
      assert Waiting(s, act) == s.queued;
      FlushLaw(batch, s.(clock := s'.clock, paused := p));
  }

  /** No other action touches the queue. */
  lemma OthersLeaveQueue(batch: int, s: State, act: Action, s': State)
    requires Next(batch, s, act, s') && !act.Receive? && !act.SetPaused?
    ensures s'.paused == s.paused && s'.queued == s.queued && s'.flushed == s.flushed
  {
    hide Walk, Text.Key, Dead;
  }

  /** The trashman is paused exactly when it was last told to be. */
  function LastTold(acts: seq<Action>, k: nat): bool
    requires k <= |acts|
  {
    k > 0 && if acts[k - 1].SetPaused? then acts[k - 1].p else LastTold(acts, k - 1)
  }

  lemma {:induction false} PausedIffTold(batch: int, tr: seq<State>, acts: seq<Action>, k: nat)
    requires Run(batch, tr, acts) && k < |tr|
    ensures tr[k].paused == LastTold(acts, k)
  {
    hide Next;
    if k > 0 {
      PausedIffTold(batch, tr, acts, k - 1);
      assert StepAt(batch, tr, acts, k - 1);
      if acts[k - 1].Receive? || acts[k - 1].SetPaused? {
        TurnFlushesIff(batch, tr[k - 1], acts[k - 1], tr[k]);
      } else {
        OthersLeaveQueue(batch, tr[k - 1], acts[k - 1], tr[k]);
      }
    }
  }

  /** In any run a response is flushed only with a full batch, and never while the trashman is
      told to pause. */
  lemma FlushesFullBatches(batch: int, tr: seq<State>, acts: seq<Action>, k: nat)
    requires Run(batch, tr, acts) && k < |acts| && tr[k + 1].flushed != tr[k].flushed
    ensures !LastTold(acts, k + 1) && (acts[k].Receive? || acts[k].SetPaused?)
    ensures |tr[k + 1].flushed| >= |tr[k].flushed| + batch && tr[k + 1].queued == {}
  {
    hide Next;
    PausedIffTold(batch, tr, acts, k + 1);
    assert StepAt(batch, tr, acts, k);
    if acts[k].Receive? || acts[k].SetPaused? {
      TurnFlushesIff(batch, tr[k], acts[k], tr[k + 1]);
      assert |multiset(Waiting(tr[k], acts[k]))| == |Waiting(tr[k], acts[k])|;
    } else {
      OthersLeaveQueue(batch, tr[k], acts[k], tr[k + 1]);
    }
  }

  // ----------------------------------------------------------------- entries

  /** An entry goes exactly when it is removed, or in a flush for which its key waits. A read, a
      sweep, or an addition under another key never takes it away. */
  lemma GoneIff(batch: int, s: State, act: Action, s': State, key: string)
    requires Next(batch, s, act, s') && key in s.cache
    ensures key !in s'.cache <==>
              || (act.Remove? && act.r.FormatKey() == key)
              || ((act.Receive? || act.SetPaused?) && !s'.paused && |Waiting(s, act)| >= batch && key in Waiting(s, act))
  {
    hide Walk, Text.Key, Dead, FlushIfFull;
    if act.Receive? || act.SetPaused? {
      TurnFlushesIff(batch, s, act, s');
    }
  }
}
