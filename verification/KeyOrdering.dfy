/** The order of new keys does not depend on the order in which they are enumerated. */
module KeyOrdering {
  import opened Wrappers
  import opened Schema
  import opened Sorting
  import opened Merging

  // ---- Text order ----

  lemma {:induction false} StrTransitive(a: string, b: string, c: string)
    requires StrLess(a, b) && StrLess(b, c)
    ensures StrLess(a, c)
  {
    if a != [] && a[0] == b[0] && b[0] == c[0] {
      StrTransitive(a[1..], b[1..], c[1..]);
    }
  }

  lemma {:induction false} StrTotal(a: string, b: string)
    ensures a == b || StrLess(a, b) || StrLess(b, a)
    ensures !(StrLess(a, b) && StrLess(b, a)) && !StrLess(a, a)
  {
    if a != [] && b != [] && a[0] == b[0] {
      StrTotal(a[1..], b[1..]);
      assert a == [a[0]] + a[1..] && b == [b[0]] + b[1..];
    }
    if a != [] {
      StrTotal(a[1..], a[1..]);
    }
  }

  // ---- Key order ----

  lemma BeforeTotal(f: Option<Field>, a: string, b: string)
    ensures a == b || KeyBefore(f, a, b) || KeyBefore(f, b, a)
    ensures !(KeyBefore(f, a, b) && KeyBefore(f, b, a)) && !KeyBefore(f, a, a)
  {
    StrTotal(a, b);
    StrTotal(a, a);
  }

  lemma BeforeTransitive(f: Option<Field>, a: string, b: string, c: string)
    requires KeyBefore(f, a, b) && KeyBefore(f, b, c)
    ensures KeyBefore(f, a, c)
  {
    if SchemaPosition(f, a).None? && SchemaPosition(f, b).None? && SchemaPosition(f, c).None? {
      StrTransitive(a, b, c);
    }
  }

  function Before(f: Option<Field>): (string, string) -> bool {
    (a, b) => KeyBefore(f, a, b)
  }

  lemma BeforeIsOrder(f: Option<Field>)
    ensures WeakOrder(Before(f))
  {
    forall a, b, c ensures !Before(f)(a, a)
      ensures Before(f)(a, b) && Before(f)(b, c) ==> Before(f)(a, c)
      ensures !Before(f)(a, b) && !Before(f)(b, c) ==> !Before(f)(a, c)
    {
      BeforeTotal(f, a, a);
      BeforeTotal(f, a, b);
      BeforeTotal(f, b, c);
      if KeyBefore(f, a, b) && KeyBefore(f, b, c) {
        BeforeTransitive(f, a, b, c);
      }
      if KeyBefore(f, c, b) && KeyBefore(f, b, a) {
        BeforeTransitive(f, c, b, a);
      }
      BeforeTotal(f, a, c);
    }
  }

  /** At most one arrangement of given keys is in order. */
  lemma {:induction false} SortedOnce(xs: seq<string>, ys: seq<string>, f: Option<Field>)
    requires multiset(xs) == multiset(ys) && InOrder(xs, Before(f)) && InOrder(ys, Before(f))
    ensures xs == ys
  {
    if xs == [] {
      assert |multiset(ys)| == 0;
    } else {
      assert xs[0] in multiset(ys) && |multiset(xs)| == |multiset(ys)|;
      FirstIsLeast(xs, ys[0], f);
      FirstIsLeast(ys, xs[0], f);
      BeforeTotal(f, xs[0], ys[0]);
      RestOf(xs);
      RestOf(ys);
      SortedOnce(xs[1..], ys[1..], f);
    }
  }

  lemma FirstIsLeast(xs: seq<string>, x: string, f: Option<Field>)
    requires InOrder(xs, Before(f)) && x in multiset(xs)
    ensures !KeyBefore(f, x, xs[0])
  {
    var i :| 0 <= i < |xs| && xs[i] == x;
    BeforeTotal(f, x, x);
    assert i > 0 ==> !Before(f)(xs[i], xs[0]);
  }

  lemma RestOf(xs: seq<string>)
    requires xs != []
    ensures multiset(xs[1..]) == multiset(xs) - multiset{xs[0]} && xs == [xs[0]] + xs[1..]
  {
    assert xs == [xs[0]] + xs[1..];
  }

  /** `orderKeys` gives the same list for every enumeration of the same keys (the program enumerates
      a Go map, whose order is random). */
  lemma OrderKeysAnyOrder(xs: seq<string>, ys: seq<string>, f: Option<Field>)
    requires multiset(xs) == multiset(ys)
    ensures OrderKeys(xs, f) == OrderKeys(ys, f)
    ensures InOrder(OrderKeys(xs, f), Before(f))
  {
    BeforeIsOrder(f);
    SortInOrder(xs, Before(f));
    SortInOrder(ys, Before(f));
    SortPermutes(xs, Before(f));
    SortPermutes(ys, Before(f));
    SortedOnce(Sort(xs, Before(f)), Sort(ys, Before(f)), f);
    OrderKeysIs(xs, f);
    OrderKeysIs(ys, f);
  }

  lemma OrderKeysIs(xs: seq<string>, f: Option<Field>)
    ensures OrderKeys(xs, f) == Sort(xs, Before(f))
  {
  }
}
