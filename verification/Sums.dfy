/** Finite sums over a set of keys, and how they change with one key. */
module Sums {
  ghost function Sum<K(!new)>(keys: set<K>, f: K -> int): int
    decreases |keys|
  {
    if keys == {} then 0
    else
      var k :| k in keys;
      f(k) + Sum(keys - {k}, f)
  }

  lemma {:induction false} Pick<K(!new)>(keys: set<K>, f: K -> int, k: K)
    requires k in keys
    ensures Sum(keys, f) == f(k) + Sum(keys - {k}, f)
    decreases |keys|
  {
    var first :| first in keys && Sum(keys, f) == f(first) + Sum(keys - {first}, f);
    if first != k {
      Pick(keys - {first}, f, k);
      Pick(keys - {k}, f, first);
      assert keys - {first} - {k} == keys - {k} - {first};
    }
  }

  lemma {:induction false} Same<K(!new)>(keys: set<K>, f: K -> int, g: K -> int)
    requires forall k :: k in keys ==> f(k) == g(k)
    ensures Sum(keys, f) == Sum(keys, g)
    decreases |keys|
  {
    if keys != {} {
      var k :| k in keys;
      Pick(keys, f, k);
      Pick(keys, g, k);
      Same(keys - {k}, f, g);
    }
  }

  /** Changing the summand at one key changes the sum by the difference there. */
  lemma Change<K(!new)>(keys: set<K>, f: K -> int, g: K -> int, k: K)
    requires k in keys
    requires forall j :: j in keys && j != k ==> f(j) == g(j)
    ensures Sum(keys, g) == Sum(keys, f) - f(k) + g(k)
  {
    Pick(keys, f, k);
    Pick(keys, g, k);
    Same(keys - {k}, f, g);
  }

  lemma {:induction false} Monotone<K(!new)>(keys: set<K>, f: K -> int, g: K -> int)
    requires forall k :: k in keys ==> f(k) <= g(k)
    ensures Sum(keys, f) <= Sum(keys, g)
    decreases |keys|
  {
    if keys != {} {
      var k :| k in keys;
      Pick(keys, f, k);
      Pick(keys, g, k);
      Monotone(keys - {k}, f, g);
    }
  }

  lemma AtLeast<K(!new)>(keys: set<K>, f: K -> int, k: K)
    requires k in keys && forall j :: j in keys ==> 0 <= f(j)
    ensures f(k) <= Sum(keys, f)
  {
    Pick(keys, f, k);
    NonNegative(keys - {k}, f);
  }

  lemma {:induction false} NonNegative<K(!new)>(keys: set<K>, f: K -> int)
    requires forall j :: j in keys ==> 0 <= f(j)
    ensures 0 <= Sum(keys, f)
    decreases |keys|
  {
    if keys != {} {
      var k :| k in keys;
      Pick(keys, f, k);
      NonNegative(keys - {k}, f);
    }
  }

  /** With no negative summand, a smaller set of keys has no larger sum. */
  lemma {:induction false} Subset<K(!new)>(keys: set<K>, more: set<K>, f: K -> int)
    requires keys <= more && forall k :: k in more ==> 0 <= f(k)
    ensures Sum(keys, f) <= Sum(more, f)
    decreases |more|
  {
    if keys == {} {
      NonNegative(more, f);
    } else {
      var k :| k in keys;
      Pick(keys, f, k);
      Pick(more, f, k);
      Subset(keys - {k}, more - {k}, f);
    }
  }
}
