/** Stable sorting by a comparison (`sort.SliceStable`). */
module Sorting {

  /** Puts `x` in front of the first element it must precede. */
  function InsertSorted<T>(x: T, s: seq<T>, less: (T, T) -> bool): seq<T> {
    if s == [] then [x]
    else if less(x, s[0]) then [x] + s
    else [s[0]] + InsertSorted(x, s[1..], less)
  }

  function Sort<T>(s: seq<T>, less: (T, T) -> bool): seq<T> {
    if s == [] then [] else InsertSorted(s[|s| - 1], Sort(s[..|s| - 1], less), less)
  }

  lemma {:induction false} InsertPermutes<T>(x: T, s: seq<T>, less: (T, T) -> bool)
    ensures multiset(InsertSorted(x, s, less)) == multiset(s) + multiset{x}
  {
    if s != [] {
      InsertPermutes(x, s[1..], less);
      assert s == [s[0]] + s[1..];
    }
  }

  /** Sorting drops and adds nothing. */
  lemma {:induction false} SortPermutes<T>(s: seq<T>, less: (T, T) -> bool)
    ensures multiset(Sort(s, less)) == multiset(s) && |Sort(s, less)| == |s|
  {
    if s != [] {
      var n := |s| - 1;
      SortPermutes(s[..n], less);
      InsertPermutes(s[n], Sort(s[..n], less), less);
      assert s == s[..n] + [s[n]];
    }
    assert |multiset(Sort(s, less))| == |Sort(s, less)| && |multiset(s)| == |s|;
  }

  lemma SameMembers<T(!new)>(s: seq<T>, r: seq<T>)
    requires multiset(s) == multiset(r)
    ensures forall x :: x in s <==> x in r
  {
    forall x ensures x in s <==> x in r {
      assert x in multiset(s) <==> x in multiset(r);
    }
  }

  ghost predicate NoDuplicates<T>(s: seq<T>) {
    forall i, j | 0 <= i < j < |s| :: s[i] != s[j]
  }

  lemma DuplicatesCounted<T(!new)>(s: seq<T>)
    ensures NoDuplicates(s) <==> forall x :: multiset(s)[x] <= 1
  {
    if s != [] {
      var n := |s| - 1;
      DuplicatesCounted(s[..n]);
      assert s == s[..n] + [s[n]];
      if NoDuplicates(s) {
        assert NoDuplicates(s[..n]);
        assert s[n] !in s[..n];
      }
      if forall x :: multiset(s)[x] <= 1 {
        forall x ensures multiset(s[..n])[x] <= 1 {
          assert multiset(s)[x] == multiset(s[..n])[x] + multiset([s[n]])[x];
        }
        assert multiset(s)[s[n]] == multiset(s[..n])[s[n]] + 1;
        assert s[n] !in s[..n];
      }
    }
  }

  lemma SortKeepsDistinct<T(!new)>(s: seq<T>, less: (T, T) -> bool)
    requires NoDuplicates(s)
    ensures NoDuplicates(Sort(s, less)) && forall x :: x in Sort(s, less) <==> x in s
  {
    SortPermutes(s, less);
    DuplicatesCounted(s);
    DuplicatesCounted(Sort(s, less));
    SameMembers(s, Sort(s, less));
  }

  // ---- Sorted, stable, and unique ----

  /** A strict weak order: irreflexive, transitive, and ties are transitive too. */
  ghost predicate WeakOrder<T(!new)>(less: (T, T) -> bool) {
    (forall a :: !less(a, a)) &&
    (forall a, b, c :: less(a, b) && less(b, c) ==> less(a, c)) &&
    (forall a, b, c :: !less(a, b) && !less(b, c) ==> !less(a, c))
  }

  ghost predicate InOrder<T>(s: seq<T>, less: (T, T) -> bool) {
    forall i, j | 0 <= i < j < |s| :: !less(s[j], s[i])
  }

  /** The elements of `s` with property `p`, in order. */
  function Keep<T>(s: seq<T>, p: T -> bool): seq<T> {
    if s == [] then [] else if p(s[0]) then [s[0]] + Keep(s[1..], p) else Keep(s[1..], p)
  }

  lemma {:induction false} KeepMembers<T>(s: seq<T>, p: T -> bool, x: T)
    ensures x in Keep(s, p) <==> x in s && p(x)
  {
    if s != [] {
      KeepMembers(s[1..], p, x);
      assert s == [s[0]] + s[1..];
    }
  }

  lemma {:induction false} KeepConcat<T>(xs: seq<T>, ys: seq<T>, p: T -> bool)
    ensures Keep(xs + ys, p) == Keep(xs, p) + Keep(ys, p)
  {
    if xs == [] {
      assert xs + ys == ys;
    } else {
      assert (xs + ys)[0] == xs[0] && (xs + ys)[1..] == xs[1..] + ys;
      KeepConcat(xs[1..], ys, p);
      assert [xs[0]] + (Keep(xs[1..], p) + Keep(ys, p)) == ([xs[0]] + Keep(xs[1..], p)) + Keep(ys, p);
    }
  }

  lemma {:induction false} KeepNone<T>(s: seq<T>, p: T -> bool)
    requires forall x | x in s :: !p(x)
    ensures Keep(s, p) == []
  {
    if s != [] {
      KeepNone(s[1..], p);
    }
  }

  lemma {:induction false} InsertInOrder<T(!new)>(x: T, s: seq<T>, less: (T, T) -> bool)
    requires WeakOrder(less) && InOrder(s, less)
    ensures InOrder(InsertSorted(x, s, less), less)
  {
    if s != [] && !less(x, s[0]) {
      InsertInOrder(x, s[1..], less);
      var r := InsertSorted(x, s[1..], less);
      InsertPermutes(x, s[1..], less);
      forall j | 0 <= j < |r| ensures !less(r[j], s[0]) {
        assert r[j] in multiset(r);
        assert r[j] == x || r[j] in s[1..];
      }
    }
  }

  lemma {:induction false} SortInOrder<T(!new)>(s: seq<T>, less: (T, T) -> bool)
    requires WeakOrder(less)
    ensures InOrder(Sort(s, less), less)
  {
    if s != [] {
      SortInOrder(s[..|s| - 1], less);
      InsertInOrder(s[|s| - 1], Sort(s[..|s| - 1], less), less);
    }
  }

  function Tie<T>(less: (T, T) -> bool, pivot: T): T -> bool {
    y => !less(y, pivot) && !less(pivot, y)
  }

  lemma {:induction false} TieAbove<T(!new)>(x: T, s: seq<T>, less: (T, T) -> bool, pivot: T)
    requires WeakOrder(less) && InOrder(s, less) && s != [] && less(x, s[0]) && Tie(less, pivot)(x)
    ensures Keep(s, Tie(less, pivot)) == []
  {
    forall y | y in s ensures !Tie(less, pivot)(y) {
      var j :| 0 <= j < |s| && s[j] == y;
      assert !less(y, s[0]);
      assert less(x, y);
    }
    KeepNone(s, Tie(less, pivot));
  }

  /** `x` goes behind everything it ties with. */
  lemma {:induction false} InsertStable<T(!new)>(x: T, s: seq<T>, less: (T, T) -> bool, pivot: T)
    requires WeakOrder(less) && InOrder(s, less)
    ensures Keep(InsertSorted(x, s, less), Tie(less, pivot)) == Keep(s, Tie(less, pivot)) + Keep([x], Tie(less, pivot))
  {
    var tie := Tie(less, pivot);
    if s == [] {
    } else if less(x, s[0]) {
      KeepConcat([x], s, tie);
      if tie(x) {
        TieAbove(x, s, less, pivot);
      }
    } else {
      InsertStable(x, s[1..], less, pivot);
      KeepBehind(s, InsertSorted(x, s[1..], less), Keep([x], tie), tie);
    }
  }

  lemma KeepBehind<T>(s: seq<T>, r: seq<T>, tail: seq<T>, p: T -> bool)
    requires s != [] && Keep(r, p) == Keep(s[1..], p) + tail
    ensures Keep([s[0]] + r, p) == Keep(s, p) + tail
  {
    KeepConcat([s[0]], r, p);
    KeepConcat([s[0]], s[1..], p);
    assert s == [s[0]] + s[1..];
    Regroup(Keep([s[0]], p), Keep(s[1..], p), tail);
  }

  lemma Regroup<T>(a: seq<T>, b: seq<T>, c: seq<T>)
    ensures a + (b + c) == (a + b) + c
  {
  }

  /** Sorting is stable: elements that tie keep their order. */
  lemma {:induction false} SortStable<T(!new)>(s: seq<T>, less: (T, T) -> bool, pivot: T)
    requires WeakOrder(less)
    ensures Keep(Sort(s, less), Tie(less, pivot)) == Keep(s, Tie(less, pivot))
  {
    if s != [] {
      var n := |s| - 1;
      SortInOrder(s[..n], less);
      SortStable(s[..n], less, pivot);
      InsertStable(s[n], Sort(s[..n], less), less, pivot);
      KeepConcat(s[..n], [s[n]], Tie(less, pivot));
      assert s == s[..n] + [s[n]];
    }
  }

  /** Elements with `p` precede those without. */
  function TierLess<T>(p: T -> bool): (T, T) -> bool {
    (a, b) => p(a) && !p(b)
  }

  function Not<T>(p: T -> bool): T -> bool {
    x => !p(x)
  }

  lemma {:induction false} InsertTier<T>(x: T, top: seq<T>, rest: seq<T>, p: T -> bool)
    requires (forall y | y in top :: p(y)) && (forall y | y in rest :: !p(y))
    ensures InsertSorted(x, top + rest, TierLess(p)) == if p(x) then top + ([x] + rest) else top + (rest + [x])
    decreases |top| + |rest|
  {
    var less := TierLess(p);
    var s := top + rest;
    if top != [] {
      assert s[0] == top[0] && s[1..] == top[1..] + rest;
      InsertTier(x, top[1..], rest, p);
      assert !less(x, top[0]);
      assert top == [top[0]] + top[1..];
      var mid := if p(x) then [x] + rest else rest + [x];
      assert [top[0]] + (top[1..] + mid) == top + mid;
    } else {
      assert s == rest;
      if rest != [] && !p(x) {
        InsertTier(x, [], rest[1..], p);
        assert [] + rest[1..] == rest[1..] && [] + (rest[1..] + [x]) == rest[1..] + [x];
        assert [rest[0]] + (rest[1..] + [x]) == rest + [x];
      }
    }
  }

  /** Sorting by tier splits into those with `p` and the rest, both in their old order. */
  lemma {:induction false} SortByTier<T>(s: seq<T>, p: T -> bool)
    ensures Sort(s, TierLess(p)) == Keep(s, p) + Keep(s, Not(p))
  {
    if s != [] {
      var n := |s| - 1;
      var front, x := s[..n], s[n];
      SortByTier(front, p);
      forall y | y in Keep(front, p) ensures p(y) {
        KeepMembers(front, p, y);
      }
      forall y | y in Keep(front, Not(p)) ensures !p(y) {
        KeepMembers(front, Not(p), y);
      }
      InsertTier(x, Keep(front, p), Keep(front, Not(p)), p);
      assert s == front + [x];
      KeepConcat(front, [x], p);
      KeepConcat(front, [x], Not(p));
      assert Keep([x], p) == if p(x) then [x] else [];
      assert Keep([x], Not(p)) == if p(x) then [] else [x];
      assert Keep(front, p) + ([x] + Keep(front, Not(p))) == (Keep(front, p) + [x]) + Keep(front, Not(p));
    }
  }
}
