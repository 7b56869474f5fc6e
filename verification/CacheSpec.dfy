/** Cached responses as values, and the TTL arithmetic of one read. */
module CacheSpec {
  import opened PoolSpec
  import Text

  const SECOND: nat := 1_000_000_000
  const UINT32: nat := 0x1_0000_0000

  /** A TTL field is a uint32. */
  type Ttl = t: nat | t < 0x1_0000_0000

  /** A resource record: a TTL, and everything else in it. */
  datatype RR = RR(data: string, ttl: Ttl)

  /** A cached response; `body` is whatever its message holds besides the answer. */
  datatype Response = Response(name: string, qtype: nat, body: string, created: Time, answer: seq<RR>) {
    function FormatKey(): string {
      Text.Key(name, qtype)
    }
  }

  predicate Expired(created: Time, ttl: Ttl, now: Time) {
    created + ttl * SECOND < now
  }

  /** The TTL that updateTtl stores: what is left, truncated to seconds and cast to uint32,
      unless the record has expired already. The creation time stays what it was. */
  function Refresh(created: Time, ttl: Ttl, now: Time): Ttl {
    if Expired(created, ttl, now) then ttl
    else ((created + ttl * SECOND - now) / SECOND) % UINT32
  }

  /** Whole seconds, rounded up. */
  function Ceil(elapsed: nat): (seconds: nat)
    ensures (seconds - 1) * 1_000_000_000 < elapsed <= seconds * 1_000_000_000
  {
    (elapsed + SECOND - 1) / SECOND
  }

  /** A read takes the elapsed seconds, rounded up, off the stored TTL; the cast is exact. */
  lemma RefreshSubtracts(created: Time, ttl: Ttl, now: Time)
    requires created <= now && !Expired(created, ttl, now)
    ensures Ceil(now - created) <= ttl
    ensures Refresh(created, ttl, now) == ttl - Ceil(now - created)
  {
  }

  /** Does a record with this stored TTL survive a read after `elapsed`? */
  predicate Survives(ttl: Ttl, elapsed: nat) {
    ttl * SECOND >= elapsed + Ceil(elapsed) * SECOND
  }

  /** The check after the update passes exactly when the stored TTL covers the elapsed time
      twice, once rounded up. */
  lemma SurvivesRefresh(created: Time, ttl: Ttl, now: Time)
    requires created <= now
    ensures !Expired(created, Refresh(created, ttl, now), now) <==> Survives(ttl, now - created)
  {
    if !Expired(created, ttl, now) {
      RefreshSubtracts(created, ttl, now);
    }
  }

  /** A record can be turned away before its TTL has run out: exactly when the TTL covers the
      elapsed time once but not twice. A TTL of 10 does not outlive a first read after 6 s. */
  lemma TurnedAwayEarly(created: Time, ttl: Ttl, now: Time)
    requires created <= now
    ensures !Expired(created, ttl, now) && Expired(created, Refresh(created, ttl, now), now)
       <==> now - created <= ttl * SECOND < now - created + Ceil(now - created) * SECOND
    ensures Expired(0, Refresh(0, 10, 6_000_000_000), 6_000_000_000) && !Expired(0, 10, 6_000_000_000)
  {
    SurvivesRefresh(created, ttl, now);
  }

  // -------------------------------------------------------- one walk of an answer

  /** The loop of Get: update each record, then stop at the first that has expired. */
  function Walk(created: Time, answer: seq<RR>, now: Time): (r: (seq<RR>, bool))
    ensures |r.0| == |answer|
  {
    if answer == [] then ([], true)
    else
      var rr := answer[0].(ttl := Refresh(created, answer[0].ttl, now));
      if Expired(created, rr.ttl, now) then ([rr] + answer[1..], false)
      else
        var (rest, hit) := Walk(created, answer[1..], now);
        ([rr] + rest, hit)
  }

  /** Index of the first record that does not survive, |answer| when all do. */
  function FirstFailing(answer: seq<RR>, elapsed: nat): (r: nat)
    ensures r <= |answer|
    ensures forall k :: 0 <= k < r ==> Survives(answer[k].ttl, elapsed)
    ensures r < |answer| ==> !Survives(answer[r].ttl, elapsed)
  {
    if answer == [] || !Survives(answer[0].ttl, elapsed) then 0 else 1 + FirstFailing(answer[1..], elapsed)
  }

  /** A walk refreshes the records up to and including the first failing one, and no more. */
  lemma {:induction false} WalkRecords(created: Time, answer: seq<RR>, now: Time)
    requires created <= now
    ensures var (answer', hit) := Walk(created, answer, now);
            var stop := FirstFailing(answer, now - created);
            && |answer'| == |answer|
            && (hit <==> stop == |answer|)
            && (forall k :: 0 <= k < |answer| ==> answer'[k].data == answer[k].data)
            && (forall k :: 0 <= k < |answer| && k <= stop ==> answer'[k].ttl == Refresh(created, answer[k].ttl, now))
            && (forall k :: stop < k < |answer| ==> answer'[k] == answer[k])
  {
    if answer != [] {
      SurvivesRefresh(created, answer[0].ttl, now);
      if Survives(answer[0].ttl, now - created) {
        WalkRecords(created, answer[1..], now);
        var answer', rest := Walk(created, answer, now).0, Walk(created, answer[1..], now).0;
        assert forall k | 0 < k < |answer| :: answer[k] == answer[1..][k - 1] && answer'[k] == rest[k - 1];
      }
    }
  }

  function Lowest(answer: seq<RR>): Ttl
    requires answer != []
  {
    if |answer| == 1 || answer[0].ttl <= Lowest(answer[1..]) then answer[0].ttl else Lowest(answer[1..])
  }

  lemma {:induction false} LowestBound(answer: seq<RR>)
    requires answer != []
    ensures forall k :: 0 <= k < |answer| ==> Lowest(answer) <= answer[k].ttl
    ensures exists k :: 0 <= k < |answer| && answer[k].ttl == Lowest(answer)
  {
    if |answer| == 1 {
      assert answer[0].ttl == Lowest(answer);
    } else {
      LowestBound(answer[1..]);
      var k :| 0 <= k < |answer| - 1 && answer[1..][k].ttl == Lowest(answer[1..]);
      assert answer[k + 1].ttl == Lowest(answer[1..]);
    }
  }

  /** Section 5.2 of RFC 2181, treat the lowest TTL of a set as the TTL of all, as the loop
      applies it: a hit exactly when the answer is empty or its lowest stored TTL survives. */
  lemma LowestTtlRule(created: Time, answer: seq<RR>, now: Time)
    requires created <= now
    ensures Walk(created, answer, now).1 <==> answer == [] || Survives(Lowest(answer), now - created)
  {
    WalkRecords(created, answer, now);
    if answer != [] {
      LowestBound(answer);
      var k :| 0 <= k < |answer| && answer[k].ttl == Lowest(answer);
      assert Survives(Lowest(answer), now - created) ==> forall j :: 0 <= j < |answer| ==> Survives(answer[j].ttl, now - created);
    }
  }

  /** On a hit every TTL goes down by the elapsed seconds, nothing else changes, and no record
      is stale. */
  lemma HitTtls(created: Time, answer: seq<RR>, now: Time, k: nat)
    requires created <= now && Walk(created, answer, now).1 && k < |answer|
    ensures var rr := Walk(created, answer, now).0[k];
            && rr.data == answer[k].data
            && rr.ttl + Ceil(now - created) == answer[k].ttl
            && !Expired(created, rr.ttl, now)
  {
    WalkRecords(created, answer, now);
    SurvivesRefresh(created, answer[k].ttl, now);
    RefreshSubtracts(created, answer[k].ttl, now);
  }

  /** Some record has expired by its stored TTL. */
  ghost predicate Dead(r: Response, now: Time) {
    exists k :: 0 <= k < |r.answer| && Expired(r.created, r.answer[k].ttl, now)
  }

  /** A miss leaves a dead response behind, and a dead response is a miss. */
  lemma MissLeavesDead(r: Response, now: Time)
    requires r.created <= now
    ensures var (answer, hit) := Walk(r.created, r.answer, now);
            && (!hit ==> Dead(r.(answer := answer), now))
            && (Dead(r, now) ==> !hit && Dead(r.(answer := answer), now))
  {
    var (answer, hit) := Walk(r.created, r.answer, now);
    var stop := FirstFailing(r.answer, now - r.created);
    WalkRecords(r.created, r.answer, now);
    if Dead(r, now) {
      var k :| 0 <= k < |r.answer| && Expired(r.created, r.answer[k].ttl, now);
      assert !Survives(r.answer[k].ttl, now - r.created);
    }
    if stop < |r.answer| {
      SurvivesRefresh(r.created, r.answer[stop].ttl, now);
      assert Expired(r.created, answer[stop].ttl, now);
    }
  }
}
