/** Orderings and sequence windows shared by the store's find operation:
    lexicographic order on strings, a sort by a caller-chosen strict order,
    selection by a predicate, and skip/limit paging. */
module Ordering {

  /** Lexicographic order on strings, by code unit. */
  predicate StrLess(a: string, b: string) {
    if a == [] then b != []
    else if b == [] then false
    else if a[0] != b[0] then a[0] < b[0]
    else StrLess(a[1..], b[1..])
  }

  lemma {:induction false} StrLessIrreflexive(a: string)
    ensures !StrLess(a, a)
  {
    if a != [] {
      StrLessIrreflexive(a[1..]);
    }
  }

  lemma {:induction false} StrLessTransitive(a: string, b: string, c: string)
    requires StrLess(a, b) && StrLess(b, c)
    ensures StrLess(a, c)
  {
    if a != [] && b != [] && c != [] && a[0] == b[0] && b[0] == c[0] {
      StrLessTransitive(a[1..], b[1..], c[1..]);
    }
  }

  /** before is irreflexive and transitive: a strict partial order. */
  ghost predicate StrictOrder<T(!new)>(before: (T, T) -> bool) {
    && (forall a :: !before(a, a))
    && (forall a, b, c :: before(a, b) && before(b, c) ==> before(a, c))
  }

  /** No later element should have come before an earlier one. */
  predicate Sorted<T>(s: seq<T>, before: (T, T) -> bool) {
    forall i, j :: 0 <= i < j < |s| ==> !before(s[j], s[i])
  }

  /** x placed in front of the first element it must precede. */
  function Insert<T>(x: T, s: seq<T>, before: (T, T) -> bool): (r: seq<T>)
    ensures multiset(r) == multiset(s) + multiset{x}
    ensures |r| == |s| + 1
  {
    if s == [] then [x]
    else if before(x, s[0]) then [x] + s
    else
      assert s == [s[0]] + s[1..];
      [s[0]] + Insert(x, s[1..], before)
  }

  /** Insertion sort: each element goes after every element it need not precede. */
  function SortBy<T>(s: seq<T>, before: (T, T) -> bool): (r: seq<T>)
    ensures multiset(r) == multiset(s)
    ensures |r| == |s|
  {
    if s == [] then []
    else
      assert s == s[..|s| - 1] + [s[|s| - 1]];
      Insert(s[|s| - 1], SortBy(s[..|s| - 1], before), before)
  }

  lemma {:induction false} InsertSorted<T(!new)>(x: T, s: seq<T>, before: (T, T) -> bool)
    requires StrictOrder(before) && Sorted(s, before)
    ensures Sorted(Insert(x, s, before), before)
  {
    if s != [] && !before(x, s[0]) {
      var t := s[1..];
      assert Sorted(t, before);
      InsertSorted(x, t, before);
      var r := Insert(x, s, before);
      var rt := Insert(x, t, before);
      assert r == [s[0]] + rt;
      forall j | 0 < j < |r| ensures !before(r[j], s[0]) {
        var e := r[j];
        assert e in multiset(rt);
        assert e in multiset(t) + multiset{x};
        if e != x {
          assert e in multiset(t);
          var k :| 0 <= k < |t| && t[k] == e;
          assert s[k + 1] == e;
        }
      }
    }
  }

  /** The sort's result is ordered whenever before is a strict order. */
  lemma {:induction false} SortBySorted<T(!new)>(s: seq<T>, before: (T, T) -> bool)
    requires StrictOrder(before)
    ensures Sorted(SortBy(s, before), before)
  {
    if s != [] {
      SortBySorted(s[..|s| - 1], before);
      InsertSorted(s[|s| - 1], SortBy(s[..|s| - 1], before), before);
    }
  }

  /** The elements satisfying p, in their original order. */
  function Select<T>(s: seq<T>, p: T -> bool): (r: seq<T>)
    ensures |r| <= |s|
    ensures forall i :: 0 <= i < |r| ==> p(r[i])
    ensures forall i :: 0 <= i < |r| ==> r[i] in s
    ensures forall i :: 0 <= i < |s| && p(s[i]) ==> s[i] in r
  {
    if s == [] then []
    else
      var init := Select(s[..|s| - 1], p);
      assert forall i :: 0 <= i < |s| - 1 ==> s[..|s| - 1][i] == s[i];
      if p(s[|s| - 1]) then init + [s[|s| - 1]] else init
  }

  /** Selecting twice with the same predicate selects nothing more. */
  lemma {:induction false} SelectIdempotent<T>(s: seq<T>, p: T -> bool)
    ensures Select(Select(s, p), p) == Select(s, p)
  {
    if s != [] {
      var init := s[..|s| - 1];
      SelectIdempotent(init, p);
      var r := Select(init, p);
      if p(s[|s| - 1]) {
        var r' := r + [s[|s| - 1]];
        assert r'[..|r'| - 1] == r;
      }
    }
  }

  /** Nothing is selected when no element satisfies p. */
  lemma {:induction false} SelectNone<T>(s: seq<T>, p: T -> bool)
    requires forall i :: 0 <= i < |s| ==> !p(s[i])
    ensures Select(s, p) == []
  {
    if s != [] {
      SelectNone(s[..|s| - 1], p);
    }
  }

  /** Everything is selected when every element satisfies p. */
  lemma {:induction false} SelectAll<T>(s: seq<T>, p: T -> bool)
    requires forall i :: 0 <= i < |s| ==> p(s[i])
    ensures Select(s, p) == s
  {
    if s != [] {
      SelectAll(s[..|s| - 1], p);
      assert s == s[..|s| - 1] + [s[|s| - 1]];
    }
  }

  /** Selecting from a concatenation selects from each part in turn. */
  lemma {:induction false} SelectAppend<T>(a: seq<T>, b: seq<T>, p: T -> bool)
    ensures Select(a + b, p) == Select(a, p) + Select(b, p)
    decreases |b|
  {
    if b == [] {
      assert a + b == a;
    } else {
      var b' := b[..|b| - 1];
      var x := b[|b| - 1];
      SelectAppend(a, b', p);
      assert (a + b)[..|a + b| - 1] == a + b' && (a + b)[|a + b| - 1] == x;
      assert Select(b, p) == if p(x) then Select(b', p) + [x] else Select(b', p);
      assert Select(a + b, p) == if p(x) then Select(a + b', p) + [x] else Select(a + b', p);
      assert Select(a, p) + (Select(b', p) + [x]) == Select(a, p) + Select(b', p) + [x];
    }
  }

  /** Skip the first skip elements, then keep at most limit of them; a limit of 0 keeps all. */
  function Window<T>(s: seq<T>, skip: nat, limit: nat): (r: seq<T>)
    ensures limit > 0 ==> |r| <= limit
    ensures skip >= |s| ==> r == []
    ensures skip < |s| ==> |r| == (if limit == 0 || |s| - skip <= limit then |s| - skip else limit)
    ensures forall i :: 0 <= i < |r| ==> skip + i < |s| && r[i] == s[skip + i]
  {
    var rest := if skip >= |s| then [] else s[skip..];
    if limit == 0 || |rest| <= limit then rest else rest[..limit]
  }

  /** A window of an ordered sequence is ordered. */
  lemma WindowSorted<T>(s: seq<T>, skip: nat, limit: nat, before: (T, T) -> bool)
    requires Sorted(s, before)
    ensures Sorted(Window(s, skip, limit), before)
  {
    var w := Window(s, skip, limit);
    forall i, j | 0 <= i < j < |w| ensures !before(w[j], w[i]) {
      assert w[i] == s[skip + i] && w[j] == s[skip + j];
    }
  }

  /** The elements satisfying p, sorted by before, then the first limit of
      them (0: all): as many as there are, up to the limit, and no element
      left out should have come before one that was kept. */
  function SelectSortWindow<T(!new)>(s: seq<T>, p: T -> bool, before: (T, T) -> bool, limit: nat): (r: seq<T>)
    requires StrictOrder(before)
    ensures limit > 0 ==> |r| == (if |Select(s, p)| <= limit then |Select(s, p)| else limit)
    ensures limit == 0 ==> multiset(r) == multiset(Select(s, p))
    ensures multiset(r) <= multiset(Select(s, p))
    ensures forall i :: 0 <= i < |r| ==> r[i] in s && p(r[i])
    ensures Sorted(r, before)
    ensures forall x :: x in s && p(x) && x !in r ==> forall i :: 0 <= i < |r| ==> !before(x, r[i])
  {
    SortedPrefix(s, p, before, limit);
    Window(SortBy(Select(s, p), before), 0, limit)
  }

  /** The proof of SelectSortWindow's contract: the window is a prefix of the
      sorted selection. */
  lemma SortedPrefix<T(!new)>(s: seq<T>, p: T -> bool, before: (T, T) -> bool, limit: nat)
    requires StrictOrder(before)
    ensures var w := Window(SortBy(Select(s, p), before), 0, limit);
      && (limit == 0 ==> multiset(w) == multiset(Select(s, p)))
      && multiset(w) <= multiset(Select(s, p))
      && (forall i :: 0 <= i < |w| ==> w[i] in s && p(w[i]))
      && Sorted(w, before)
      && (forall x :: x in s && p(x) && x !in w ==> forall i :: 0 <= i < |w| ==> !before(x, w[i]))
  {
    var matching := Select(s, p);
    var sorted := SortBy(matching, before);
    var w := Window(sorted, 0, limit);
    assert w == sorted[..|w|];
    PrefixSubMultiset(sorted, |w|);
    forall i | 0 <= i < |w| ensures w[i] in s && p(w[i]) {
      assert w[i] in multiset(sorted);
      assert w[i] in multiset(matching);
    }
    SortBySorted(matching, before);
    forall x | x in s && p(x) && x !in w ensures forall i :: 0 <= i < |w| ==> !before(x, w[i]) {
      SelectedIn(s, p, x);
      assert x in multiset(sorted);
      var k :| 0 <= k < |sorted| && sorted[k] == x;
      assert k >= |w|;
      forall i | 0 <= i < |w| ensures !before(x, w[i]) {
        assert w[i] == sorted[i];
      }
    }
    if limit == 0 {
      assert w == sorted;
    }
  }

  /** A prefix holds no element more often than the whole sequence. */
  lemma PrefixSubMultiset<T>(s: seq<T>, n: nat)
    requires n <= |s|
    ensures multiset(s[..n]) <= multiset(s)
  {
    assert s == s[..n] + s[n..];
  }

  /** Every element of s that satisfies p is selected. */
  lemma SelectedIn<T>(s: seq<T>, p: T -> bool, x: T)
    requires x in s && p(x)
    ensures x in Select(s, p)
  {
    var i :| 0 <= i < |s| && s[i] == x;
  }

  /** No element occurs twice. */
  predicate Distinct<T(==)>(s: seq<T>) {
    forall i, j :: 0 <= i < j < |s| ==> s[i] != s[j]
  }
}
