/** Ranging over a map: Go visits the keys once each in an order it chooses. The order is an
    argument here; what does not depend on it is proved so. */
module Iteration {
  import opened Cacher

  /** order visits every key of the map once. */
  ghost predicate Visits<V>(order: seq<string>, data: map<string, V>)
  {
    Distinct(order) && Members(order) == data.Keys
  }

  /** The sum of f over a set of keys. */
  ghost function Sum(keys: set<string>, f: string -> nat): nat
  {
    if keys == {} then 0 else var k :| k in keys; f(k) + Sum(keys - {k}, f)
  }

  lemma {:induction false} SumAny(keys: set<string>, f: string -> nat, k: string)
    requires k in keys
    ensures Sum(keys, f) == f(k) + Sum(keys - {k}, f)
    decreases keys
  {
    var p :| p in keys && Sum(keys, f) == f(p) + Sum(keys - {p}, f);
    if p != k {
      SumAny(keys - {p}, f, k);
      SumAny(keys - {k}, f, p);
      assert keys - {p} - {k} == keys - {k} - {p};
    }
  }

  /** The sum in the order of a list. */
  function SumAlong(order: seq<string>, f: string -> nat): nat
    decreases |order|
  {
    if order == [] then 0 else SumAlong(order[..|order| - 1], f) + f(order[|order| - 1])
  }

  /** Adding up along any order of distinct keys gives the sum over them. */
  lemma {:induction false} SumAlongAnyOrder(order: seq<string>, f: string -> nat)
    requires Distinct(order)
    ensures SumAlong(order, f) == Sum(Members(order), f)
    decreases |order|
  {
    if order != [] {
      var init, k := order[..|order| - 1], order[|order| - 1];
      SumAlongAnyOrder(init, f);
      assert order == init + [k];
      MembersAppend(init, k);
      assert Members(order) - {k} == Members(init);
      SumAny(Members(order), f, k);
    }
  }

  lemma {:induction false} SumScaled(keys: set<string>, f: string -> nat, g: string -> nat, n: nat)
    requires forall k :: k in keys ==> f(k) == n * g(k)
    ensures Sum(keys, f) == n * Sum(keys, g)
    decreases keys
  {
    if keys != {} {
      var k :| k in keys;
      SumAny(keys, f, k);
      SumAny(keys, g, k);
      SumScaled(keys - {k}, f, g, n);
      Distribute(n, g(k), Sum(keys - {k}, g));
    }
  }

  lemma Distribute(n: nat, a: nat, b: nat)
    ensures n * (a + b) == n * a + n * b
  {
  }

  lemma SumOne(k: string, f: string -> nat)
    ensures Sum({k}, f) == f(k)
  {
    SumAny({k}, f, k);
    assert {k} - {k} == {};
  }

  /** The places (k, i) of the elements of a family of sets. */
  ghost function Places(keys: set<string>, family: string -> set<nat>): set<(string, nat)>
  {
    set k, i | k in keys && i in family(k) :: (k, i)
  }

  /** Adding up sizes counts the elements. */
  lemma {:induction false} SumCounts(keys: set<string>, f: string -> nat, family: string -> set<nat>)
    requires forall k :: k in keys ==> f(k) == |family(k)|
    ensures Sum(keys, f) == |Places(keys, family)|
    decreases keys
  {
    if keys == {} {
      assert Places(keys, family) == {};
    } else {
      var k :| k in keys;
      SumAny(keys, f, k);
      SumCounts(keys - {k}, f, family);
      PlacesOfOne(k, family(k));
      PlacesSplit(keys, family, k);
    }
  }

  lemma PlacesSplit(keys: set<string>, family: string -> set<nat>, k: string)
    requires k in keys
    ensures |Places(keys, family)| == |Places(keys - {k}, family)| + |PlacesAt(k, family(k))|
  {
    var rest, one := Places(keys - {k}, family), PlacesAt(k, family(k));
    forall p, i
      ensures (p, i) in Places(keys, family) <==> (p, i) in rest + one
    {
    }
    assert Places(keys, family) == rest + one;
    assert rest !! one;
  }

  ghost function PlacesAt(k: string, s: set<nat>): set<(string, nat)>
  {
    set i | i in s :: (k, i)
  }

  lemma {:induction false} PlacesOfOne(k: string, s: set<nat>)
    ensures |PlacesAt(k, s)| == |s|
    decreases s
  {
    if s == {} {
      assert PlacesAt(k, s) == {};
    } else {
      var p :| p in s;
      PlacesOfOne(k, s - {p});
      forall q, i
        ensures (q, i) in PlacesAt(k, s) <==> (q, i) in PlacesAt(k, s - {p}) + {(k, p)}
      {
      }
      assert PlacesAt(k, s) == PlacesAt(k, s - {p}) + {(k, p)};
      assert (k, p) !in PlacesAt(k, s - {p});
    }
  }

  /** Everything that f gives for a set of keys. */
  ghost function Pool<T>(keys: set<string>, f: string -> multiset<T>): multiset<T>
  {
    if keys == {} then multiset{} else var k :| k in keys; f(k) + Pool(keys - {k}, f)
  }

  lemma {:induction false} PoolAny<T>(keys: set<string>, f: string -> multiset<T>, k: string)
    requires k in keys
    ensures Pool(keys, f) == f(k) + Pool(keys - {k}, f)
    decreases keys
  {
    var p :| p in keys && Pool(keys, f) == f(p) + Pool(keys - {p}, f);
    if p != k {
      PoolAny(keys - {p}, f, k);
      PoolAny(keys - {k}, f, p);
      assert keys - {p} - {k} == keys - {k} - {p};
    }
  }

  function PoolAlong<T>(order: seq<string>, f: string -> multiset<T>): multiset<T>
    decreases |order|
  {
    if order == [] then multiset{} else PoolAlong(order[..|order| - 1], f) + f(order[|order| - 1])
  }

  lemma PoolAlongNext<T>(order: seq<string>, i: nat, f: string -> multiset<T>)
    requires i < |order|
    ensures PoolAlong(order[..i + 1], f) == PoolAlong(order[..i], f) + f(order[i])
  {
    assert order[..i + 1][..i] == order[..i];
  }

  lemma {:induction false} PoolAlongAnyOrder<T>(order: seq<string>, f: string -> multiset<T>)
    requires Distinct(order)
    ensures PoolAlong(order, f) == Pool(Members(order), f)
    decreases |order|
  {
    if order != [] {
      var init, k := order[..|order| - 1], order[|order| - 1];
      PoolAlongAnyOrder(init, f);
      assert order == init + [k];
      MembersAppend(init, k);
      assert Members(order) - {k} == Members(init);
      PoolAny(Members(order), f, k);
    }
  }

  /** A pool to which some of the keys contribute one thing each, the others nothing. */
  lemma {:induction false} PoolSingles<T>(keys: set<string>, f: string -> multiset<T>, givers: set<string>)
    requires forall k :: k in keys ==> |f(k)| == if k in givers then 1 else 0
    ensures |Pool(keys, f)| == |keys * givers|
    decreases keys
  {
    if keys != {} {
      var k :| k in keys && Pool(keys, f) == f(k) + Pool(keys - {k}, f);
      PoolSingles(keys - {k}, f, givers);
      CountGiver(keys, givers, k);
    }
  }

  lemma CountGiver(keys: set<string>, givers: set<string>, k: string)
    requires k in keys
    ensures |keys * givers| == |(keys - {k}) * givers| + (if k in givers then 1 else 0)
  {
    assert keys * givers == (keys - {k}) * givers + (if k in givers then {k} else {});
  }

  lemma {:induction false} PoolSize<T>(keys: set<string>, f: string -> multiset<T>, size: string -> nat)
    requires forall k :: k in keys ==> |f(k)| == size(k)
    ensures |Pool(keys, f)| == Sum(keys, size)
    decreases keys
  {
    if keys != {} {
      var k :| k in keys;
      PoolAny(keys, f, k);
      SumAny(keys, size, k);
      PoolSize(keys - {k}, f, size);
    }
  }

  /** What is in the pool comes from some key. */
  lemma {:induction false} PoolSource<T>(keys: set<string>, f: string -> multiset<T>, x: T)
    ensures x in Pool(keys, f) <==> exists k :: k in keys && x in f(k)
    decreases keys
  {
    if keys != {} {
      var p :| p in keys && Pool(keys, f) == f(p) + Pool(keys - {p}, f);
      PoolSource(keys - {p}, f, x);
    }
  }
}
