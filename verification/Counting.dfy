/** Counting connections in lists, queries in a map, and the size of a map of lists. */
module Counting {
  import opened PoolSpec

  /** How often connection `id` occurs in a list. */
  function Occ(cs: seq<Conn>, id: nat): nat {
    if cs == [] then 0 else (if cs[0].id == id then 1 else 0) + Occ(cs[1..], id)
  }

  lemma {:induction false} OccConcat(a: seq<Conn>, b: seq<Conn>, id: nat)
    ensures Occ(a + b, id) == Occ(a, id) + Occ(b, id)
  {
    if a == [] {
      assert a + b == b;
    } else {
      assert (a + b)[1..] == a[1..] + b;
      OccConcat(a[1..], b, id);
    }
  }

  lemma OccRemove(cs: seq<Conn>, k: nat, id: nat)
    requires k < |cs|
    ensures Occ(cs, id) == Occ(cs[..k] + cs[k + 1..], id) + (if cs[k].id == id then 1 else 0)
  {
    assert cs == cs[..k] + ([cs[k]] + cs[k + 1..]);
    OccConcat(cs[..k], [cs[k]] + cs[k + 1..], id);
    OccConcat([cs[k]], cs[k + 1..], id);
    OccConcat(cs[..k], cs[k + 1..], id);
  }

  lemma {:induction false} OccMember(cs: seq<Conn>, k: nat)
    requires k < |cs|
    ensures Occ(cs, cs[k].id) > 0
  {
    if k > 0 {
      OccMember(cs[1..], k - 1);
    }
  }

  lemma {:induction false} OccAbsent(cs: seq<Conn>, id: nat)
    requires forall c | c in cs :: c.id != id
    ensures Occ(cs, id) == 0
  {
    if cs != [] {
      OccAbsent(cs[1..], id);
    }
  }

  ghost function Matching<T>(m: map<nat, T>, f: T -> bool): set<nat> {
    set q | q in m && f(m[q])
  }

  /** How many entries of a map satisfy f. */
  ghost function Count<T>(m: map<nat, T>, f: T -> bool): nat {
    |Matching(m, f)|
  }

  lemma WithoutOne(s: set<nat>, q: nat)
    ensures |s| == |s - {q}| + if q in s then 1 else 0
  {
    assert s == if q in s then s - {q} + {q} else s - {q};
  }

  lemma MatchingUpdate<T>(m: map<nat, T>, q: nat, t: T, f: T -> bool)
    ensures Matching(m[q := t], f) - {q} == Matching(m, f) - {q}
  {
    var m' := m[q := t];
    forall p: nat | p != q ensures p in Matching(m', f) <==> p in Matching(m, f) {
      assert p in m' <==> p in m;
      assert p in m ==> m'[p] == m[p];
    }
  }

  lemma CountUpdate<T>(m: map<nat, T>, q: nat, t: T, f: T -> bool)
    ensures Count(m[q := t], f)
         == Count(m, f) - (if q in m && f(m[q]) then 1 else 0) + (if f(t) then 1 else 0)
  {
    MatchingUpdate(m, q, t, f);
    WithoutOne(Matching(m, f), q);
    WithoutOne(Matching(m[q := t], f), q);
  }

  lemma CountMonotone<T>(m: map<nat, T>, f: T -> bool, g: T -> bool)
    requires forall q | q in m && f(m[q]) :: g(m[q])
    ensures Count(m, f) <= Count(m, g)
  {
    SubsetSize(Matching(m, f), Matching(m, g));
  }

  lemma CountMember<T>(m: map<nat, T>, q: nat, f: T -> bool)
    requires q in m && f(m[q])
    ensures Count(m, f) > 0
  {
    assert q in Matching(m, f);
  }

  lemma {:induction false} SubsetSize<T>(a: set<T>, b: set<T>)
    requires a <= b
    ensures |a| <= |b|
  {
    if x :| x in a {
      SubsetSize(a - {x}, b - {x});
    }
  }

  /** Number of idle connections over all addresses. */
  ghost function Total<T>(m: map<string, seq<T>>): nat {
    if m == map[] then 0
    else
      var a :| a in m;
      |m[a]| + Total(m - {a})
  }

  lemma {:induction false} TotalRemove<T>(m: map<string, seq<T>>, a: string)
    requires a in m
    ensures Total(m) == |m[a]| + Total(m - {a})
    decreases |m|
  {
    var b :| b in m && Total(m) == |m[b]| + Total(m - {b});
    if b != a {
      TotalRemove(m - {b}, a);
      TotalRemove(m - {a}, b);
      assert m - {a} - {b} == m - {b} - {a};
    }
  }

  lemma TotalUpdate<T>(m: map<string, seq<T>>, a: string, list: seq<T>)
    ensures Total(m[a := list]) == Total(m) - (if a in m then |m[a]| else 0) + |list|
  {
    TotalRemove(m[a := list], a);
    if a in m {
      TotalRemove(m, a);
      assert m[a := list] - {a} == m - {a};
    } else {
      assert m[a := list] - {a} == m;
    }
  }

  lemma RemoveSize<T>(m: map<string, seq<T>>, a: string)
    requires a in m
    ensures |m| == |m - {a}| + 1
  {
    assert m.Keys == (m - {a}).Keys + {a};
  }

  lemma OneMore(bound: nat, n: nat)
    ensures bound * (n + 1) == bound * n + bound
  {
  }

  lemma {:induction false} TotalBound<T>(m: map<string, seq<T>>, bound: nat)
    requires forall a | a in m :: |m[a]| <= bound
    ensures Total(m) <= bound * |m|
    decreases |m|
  {
    if m != map[] {
      var a :| a in m;
      TotalRemove(m, a);
      TotalBound(m - {a}, bound);
      RemoveSize(m, a);
      OneMore(bound, |m - {a}|);
    }
  }

  lemma TotalZero<T>(m: map<string, seq<T>>)
    requires Total(m) == 0
    ensures forall a | a in m :: m[a] == []
  {
    forall a | a in m ensures m[a] == [] {
      TotalRemove(m, a);
    }
  }
}
