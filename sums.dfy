/** Sums over sequences and per-key group sums, the arithmetic behind the
    report accumulators, with the fact that group sums over every key add up
    to the overall sum; and the listing of a map's values in an unspecified
    order, as iterating a map yields them. */
module Sums {
  import opened Ordering

  function SumInt<T>(xs: seq<T>, f: T -> int): int {
    if xs == [] then 0 else SumInt(xs[..|xs| - 1], f) + f(xs[|xs| - 1])
  }

  function SumReal<T>(xs: seq<T>, f: T -> real): real {
    if xs == [] then 0.0 else SumReal(xs[..|xs| - 1], f) + f(xs[|xs| - 1])
  }

  lemma {:induction false} SumIntConcat<T>(a: seq<T>, b: seq<T>, f: T -> int)
    ensures SumInt(a + b, f) == SumInt(a, f) + SumInt(b, f)
  {
    if b == [] {
      assert a + b == a;
    } else {
      var b' := b[..|b| - 1];
      assert (a + b)[..|a + b| - 1] == a + b';
      SumIntConcat(a, b', f);
    }
  }

  lemma {:induction false} SumRealConcat<T>(a: seq<T>, b: seq<T>, f: T -> real)
    ensures SumReal(a + b, f) == SumReal(a, f) + SumReal(b, f)
  {
    if b == [] {
      assert a + b == a;
    } else {
      var b' := b[..|b| - 1];
      assert (a + b)[..|a + b| - 1] == a + b';
      SumRealConcat(a, b', f);
    }
  }

  /** Two sequences whose elements contribute the same amounts, position by position, have the same sum. */
  lemma {:induction false} SumIntPaired<A, B>(xs: seq<A>, ys: seq<B>, f: A -> int, g: B -> int)
    requires |xs| == |ys|
    requires forall i :: 0 <= i < |xs| ==> f(xs[i]) == g(ys[i])
    ensures SumInt(xs, f) == SumInt(ys, g)
  {
    if xs != [] {
      SumIntPaired(xs[..|xs| - 1], ys[..|ys| - 1], f, g);
    }
  }

  lemma {:induction false} SumRealPaired<A, B>(xs: seq<A>, ys: seq<B>, f: A -> real, g: B -> real)
    requires |xs| == |ys|
    requires forall i :: 0 <= i < |xs| ==> f(xs[i]) == g(ys[i])
    ensures SumReal(xs, f) == SumReal(ys, g)
  {
    if xs != [] {
      SumRealPaired(xs[..|xs| - 1], ys[..|ys| - 1], f, g);
    }
  }

  /** The sum of f over the elements whose key is k. */
  function GroupInt<T>(xs: seq<T>, key: T -> string, f: T -> int, k: string): int {
    if xs == [] then 0
    else GroupInt(xs[..|xs| - 1], key, f, k) + (if key(xs[|xs| - 1]) == k then f(xs[|xs| - 1]) else 0)
  }

  function GroupReal<T>(xs: seq<T>, key: T -> string, f: T -> real, k: string): real {
    if xs == [] then 0.0
    else GroupReal(xs[..|xs| - 1], key, f, k) + (if key(xs[|xs| - 1]) == k then f(xs[|xs| - 1]) else 0.0)
  }

  function GroupedInt<T>(xs: seq<T>, key: T -> string, f: T -> int): string -> int {
    k => GroupInt(xs, key, f, k)
  }

  function GroupedReal<T>(xs: seq<T>, key: T -> string, f: T -> real): string -> real {
    k => GroupReal(xs, key, f, k)
  }

  function IndicatorInt(x: string, v: int): string -> int {
    k => if k == x then v else 0
  }

  function IndicatorReal(x: string, v: real): string -> real {
    k => if k == x then v else 0.0
  }

  lemma {:induction false} SumIntZero(keys: seq<string>, f: string -> int)
    requires forall i :: 0 <= i < |keys| ==> f(keys[i]) == 0
    ensures SumInt(keys, f) == 0
  {
    if keys != [] {
      SumIntZero(keys[..|keys| - 1], f);
    }
  }

  lemma {:induction false} SumRealZero(keys: seq<string>, f: string -> real)
    requires forall i :: 0 <= i < |keys| ==> f(keys[i]) == 0.0
    ensures SumReal(keys, f) == 0.0
  {
    if keys != [] {
      SumRealZero(keys[..|keys| - 1], f);
    }
  }

  lemma {:induction false} SumIntAdd(keys: seq<string>, h: string -> int, f: string -> int, g: string -> int)
    requires forall i :: 0 <= i < |keys| ==> h(keys[i]) == f(keys[i]) + g(keys[i])
    ensures SumInt(keys, h) == SumInt(keys, f) + SumInt(keys, g)
  {
    if keys != [] {
      SumIntAdd(keys[..|keys| - 1], h, f, g);
    }
  }

  lemma {:induction false} SumRealAdd(keys: seq<string>, h: string -> real, f: string -> real, g: string -> real)
    requires forall i :: 0 <= i < |keys| ==> h(keys[i]) == f(keys[i]) + g(keys[i])
    ensures SumReal(keys, h) == SumReal(keys, f) + SumReal(keys, g)
  {
    if keys != [] {
      SumRealAdd(keys[..|keys| - 1], h, f, g);
    }
  }

  /** Over distinct keys, a value credited to one key is counted once. */
  lemma {:induction false} SumIntIndicator(keys: seq<string>, x: string, v: int)
    requires Distinct(keys) && x in keys
    ensures SumInt(keys, IndicatorInt(x, v)) == v
  {
    var init := keys[..|keys| - 1];
    if keys[|keys| - 1] == x {
      SumIntZero(init, IndicatorInt(x, v));
    } else {
      SumIntIndicator(init, x, v);
    }
  }

  lemma {:induction false} SumRealIndicator(keys: seq<string>, x: string, v: real)
    requires Distinct(keys) && x in keys
    ensures SumReal(keys, IndicatorReal(x, v)) == v
  {
    var init := keys[..|keys| - 1];
    if keys[|keys| - 1] == x {
      SumRealZero(init, IndicatorReal(x, v));
    } else {
      SumRealIndicator(init, x, v);
    }
  }

  /** The group sums over a list of distinct keys that covers every element's
      key add up to the sum over all elements. */
  lemma {:induction false} GroupIntTotal<T>(xs: seq<T>, key: T -> string, f: T -> int, keys: seq<string>)
    requires Distinct(keys)
    requires forall i :: 0 <= i < |xs| ==> key(xs[i]) in keys
    ensures SumInt(keys, GroupedInt(xs, key, f)) == SumInt(xs, f)
  {
    if xs == [] {
      SumIntZero(keys, GroupedInt(xs, key, f));
    } else {
      var init, x := xs[..|xs| - 1], xs[|xs| - 1];
      GroupIntTotal(init, key, f, keys);
      SumIntAdd(keys, GroupedInt(xs, key, f), GroupedInt(init, key, f), IndicatorInt(key(x), f(x)));
      SumIntIndicator(keys, key(x), f(x));
    }
  }

  lemma {:induction false} GroupRealTotal<T>(xs: seq<T>, key: T -> string, f: T -> real, keys: seq<string>)
    requires Distinct(keys)
    requires forall i :: 0 <= i < |xs| ==> key(xs[i]) in keys
    ensures SumReal(keys, GroupedReal(xs, key, f)) == SumReal(xs, f)
  {
    if xs == [] {
      SumRealZero(keys, GroupedReal(xs, key, f));
    } else {
      var init, x := xs[..|xs| - 1], xs[|xs| - 1];
      GroupRealTotal(init, key, f, keys);
      SumRealAdd(keys, GroupedReal(xs, key, f), GroupedReal(init, key, f), IndicatorReal(key(x), f(x)));
      SumRealIndicator(keys, key(x), f(x));
    }
  }

  /** vs lists the values of m, one per key, in the order keys gives. */
  ghost predicate Enumerates<V>(vs: seq<V>, keys: seq<string>, m: map<string, V>) {
    && |vs| == |keys| && Distinct(keys)
    && (forall k :: k in m <==> k in keys)
    && (forall i :: 0 <= i < |keys| ==> keys[i] in m && vs[i] == m[keys[i]])
  }

  /** The values of a map, collected by taking out one key at a time in an
      order the map chooses. */
  method Values<V>(m: map<string, V>) returns (vs: seq<V>, ghost keys: seq<string>)
    ensures Enumerates(vs, keys, m)
  {
    vs, keys := [], [];
    var rest := m;
    while rest != map[]
      invariant forall k :: k in rest ==> k in m && rest[k] == m[k]
      invariant |vs| == |keys| && Distinct(keys)
      invariant forall i :: 0 <= i < |keys| ==> keys[i] in m && keys[i] !in rest && vs[i] == m[keys[i]]
      invariant forall k :: k in m ==> k in rest || k in keys
      decreases rest.Keys
    {
      var k :| k in rest;
      vs := vs + [rest[k]];
      keys := keys + [k];
      rest := rest - {k};
    }
  }
}
