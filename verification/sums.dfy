/**
 * Finite sums over sets, the meaning of SQL's SUM and COUNT in the other modules.
 */
module Sums {

  ghost function Pick<T>(s: set<T>): (x: T)
    requires s != {}
    ensures x in s
  {
    var x :| x in s; x
  }

  ghost function Sum<T>(s: set<T>, f: T -> int): int
  {
    if s == {} then 0 else var x := Pick(s); f(x) + Sum(s - {x}, f)
  }

  /** The order in which a sum is taken does not matter. */
  lemma {:induction false} SumRemove<T>(s: set<T>, x: T, f: T -> int)
    requires x in s
    ensures Sum(s, f) == f(x) + Sum(s - {x}, f)
    decreases s
  {
    var y := Pick(s);
    if y != x {
      SumRemove(s - {y}, x, f);
      SumRemove(s - {x}, y, f);
      assert s - {y} - {x} == s - {x} - {y};
    }
  }

  lemma SumInsert<T>(s: set<T>, x: T, f: T -> int)
    requires x !in s
    ensures Sum(s + {x}, f) == f(x) + Sum(s, f)
  {
    SumRemove(s + {x}, x, f);
    assert s + {x} - {x} == s;
  }

  lemma {:induction false} SumCongruence<T>(s: set<T>, f: T -> int, g: T -> int)
    requires forall x :: x in s ==> f(x) == g(x)
    ensures Sum(s, f) == Sum(s, g)
    decreases s
  {
    if s == {} {
    } else {
      SumCongruence(s - {Pick(s)}, f, g);
    }
  }

  /** Changing the summand at one point changes the sum by the difference there. */
  lemma SumChange<T>(s: set<T>, x: T, f: T -> int, g: T -> int)
    requires x in s
    requires forall y :: y in s && y != x ==> f(y) == g(y)
    ensures Sum(s, g) == Sum(s, f) - f(x) + g(x)
  {
    SumRemove(s, x, f);
    SumRemove(s, x, g);
    SumCongruence(s - {x}, f, g);
  }

  lemma {:induction false} SumBounds<T>(s: set<T>, f: T -> int)
    requires forall x :: x in s ==> f(x) >= 0
    ensures Sum(s, f) >= 0
    ensures Sum(s, f) == 0 <==> forall x :: x in s ==> f(x) == 0
    decreases s
  {
    if s == {} {
    } else {
      var x := Pick(s);
      SumBounds(s - {x}, f);
    }
  }

  lemma {:induction false} SumMonotone<T>(s: set<T>, f: T -> int, g: T -> int)
    requires forall x :: x in s ==> f(x) <= g(x)
    ensures Sum(s, f) <= Sum(s, g)
    decreases s
  {
    if s == {} {
    } else {
      SumMonotone(s - {Pick(s)}, f, g);
    }
  }

  lemma {:induction false} SumPlus<T>(s: set<T>, f: T -> int, g: T -> int, h: T -> int)
    requires forall x :: x in s ==> h(x) == f(x) + g(x)
    ensures Sum(s, h) == Sum(s, f) + Sum(s, g)
    decreases s
  {
    if s == {} {
    } else {
      SumPlus(s - {Pick(s)}, f, g, h);
    }
  }

  /**
   * Grouping: if every element with a non-zero summand has its key in keys, summing
   * each group and then the groups gives the whole sum.
   */
  lemma {:induction false} SumGroups<T, K>(s: set<T>, keys: set<K>, key: T -> K, f: T -> int,
                                           part: K -> (T -> int), group: K -> int)
    requires forall x :: x in s && f(x) != 0 ==> key(x) in keys
    requires forall k, x :: k in keys && x in s ==> part(k)(x) == if key(x) == k then f(x) else 0
    requires forall k :: k in keys ==> group(k) == Sum(s, part(k))
    ensures Sum(keys, group) == Sum(s, f)
    decreases s
  {
    if s == {} {
      SumBounds(keys, group);
    } else {
      var x := Pick(s);
      var rest := (k: K) => Sum(s - {x}, part(k));
      var one := (k: K) => if key(x) == k then f(x) else 0;
      SumGroups(s - {x}, keys, key, f, part, rest);
      SumPlus(keys, one, rest, group);
      SumPoint(keys, key(x), f(x), one);
    }
  }

  lemma SumPoint<K>(keys: set<K>, at: K, v: int, one: K -> int)
    requires forall k :: k in keys ==> one(k) == if at == k then v else 0
    requires v != 0 ==> at in keys
    ensures Sum(keys, one) == v
  {
    var zero := (k: K) => 0;
    SumBounds(keys, zero);
    if at in keys {
      SumChange(keys, at, zero, one);
    } else {
      SumCongruence(keys, one, zero);
    }
  }

  /** Elements on which the summand is zero do not count. */
  lemma {:induction false} SumExtend<T>(s: set<T>, s': set<T>, f: T -> int, g: T -> int)
    requires s <= s'
    requires forall x :: x in s ==> f(x) == g(x)
    requires forall x :: x in s' && x !in s ==> g(x) == 0
    ensures Sum(s', g) == Sum(s, f)
    decreases s' - s
  {
    if s == s' {
      SumCongruence(s, f, g);
    } else {
      assert s' - s != {} by {
        assert s' == s + (s' - s);
      }
      var x := Pick(s' - s);
      SumRemove(s', x, g);
      SumExtend(s, s' - {x}, f, g);
    }
  }

  lemma {:induction false} SumOnes<T>(s: set<T>, one: T -> int)
    requires forall x :: x in s ==> one(x) == 1
    ensures Sum(s, one) == |s|
    decreases s
  {
    if s == {} {
    } else {
      SumOnes(s - {Pick(s)}, one);
    }
  }
}
