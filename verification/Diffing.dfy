/** The semantic diff of two configuration trees, and what it can and cannot see. */
module Diffing {
  import opened Wrappers
  import opened Trees
  import opened Schema
  import opened Identity

  datatype Kind = Add | Remove | Update | Reorder

  /** One reported change, at a wildcard path. */
  datatype Change = Change(path: string, kind: Kind)

  function Flatten(ss: seq<seq<Change>>): (r: seq<Change>)
    ensures r == [] <==> forall i | 0 <= i < |ss| :: ss[i] == []
  {
    if ss == [] then [] else ss[0] + Flatten(ss[1..])
  }

  predicate SameKind(a: Tree, b: Tree) {
    (a.Scalar? && b.Scalar?) || (a.Mapping? && b.Mapping?) || (a.Sequence? && b.Sequence?)
  }

  /** `yamlNodesEqual`: equal but for comments, key order included. */
  predicate NodesEqual(a: Tree, b: Tree) {
    match (a, b)
    case (Scalar(t, x, _), Scalar(t', x', _)) => x == x' && t == t'
    case (Mapping(es, _), Mapping(fs, _)) =>
      |es| == |fs| && forall i | 0 <= i < |es| :: es[i].key == fs[i].key && NodesEqual(es[i].value, fs[i].value)
    case (Sequence(xs, _), Sequence(ys, _)) =>
      |xs| == |ys| && forall i | 0 <= i < |xs| :: NodesEqual(xs[i], ys[i])
    case _ => false
  }

  /** `seqEqual`: compares kinds and scalar texts only, one level deep. */
  predicate ShallowEqual(xs: seq<Tree>, ys: seq<Tree>) {
    |xs| == |ys| && forall i | 0 <= i < |xs| :: SameKind(xs[i], ys[i]) && NodeText(xs[i]) == NodeText(ys[i])
  }

  function Known(ids: seq<Option<Ident>>): seq<Ident> {
    if ids == [] then []
    else (if ids[0].Some? then [ids[0].value] else []) + Known(ids[1..])
  }

  function Reordered(bids: seq<Option<Ident>>, aids: seq<Option<Ident>>, path: string): seq<Change> {
    if |Known(bids)| == |Known(aids)| && Known(bids) != Known(aids) then [Change(path, Reorder)] else []
  }

  function RemovedItems(bids: seq<Option<Ident>>, aids: seq<Option<Ident>>, path: string): seq<seq<Change>> {
    seq(|bids|, i requires 0 <= i < |bids| =>
      if bids[i].None? || bids[i] in aids then [] else [Change(Items(path), Remove)])
  }

  /** The inner walk of `semanticDiff`. */
  function Diff(b: Option<Tree>, a: Tree, f: Option<Field>, path: string): seq<Change>
    decreases a
  {
    if b.None? then [Change(path, Add)]
    else if NodesEqual(b.value, a) then []
    else
      match (b.value, a)
      case (Scalar(_, x, _), Scalar(_, y, _)) => if x != y then [Change(path, Update)] else []
      case (Mapping(es, _), Mapping(fs, _)) =>
        Flatten(seq(|es|, i requires 0 <= i < |es| =>
          if es[i].key in Keys(fs) then [] else [Change(Join(path, es[i].key), Remove)])) +
        Flatten(seq(|fs|, i requires 0 <= i < |fs| =>
          Diff(Child(b.value, fs[i].key), fs[i].value, ChildSchema(f, fs[i].key), Join(path, fs[i].key))))
      case (Sequence(xs, _), Sequence(ys, _)) =>
        var keys := IdentityKeys(f);
        if keys == [] then (if ShallowEqual(xs, ys) then [] else [Change(path, Update)])
        else
          var bids, aids := Idents(xs, keys, path), Idents(ys, keys, path);
          Reordered(bids, aids, path) +
          Flatten(seq(|ys|, i requires 0 <= i < |ys| =>
            if aids[i].None? then []
            else if Find(bids, aids[i].value).None? then [Change(Items(path), Add)]
            else Diff(Some(xs[Find(bids, aids[i].value).value]), ys[i], ItemSchema(f), Items(path)))) +
          Flatten(RemovedItems(bids, aids, path))
      case _ => [Change(path, Update)]
  }

  /** `semanticDiff` from the document root. */
  function SemanticDiff(before: Tree, after: Tree, f: Option<Field>): seq<Change> {
    Diff(Some(before), after, f, "")
  }

  /** Something the walk looks at differs in a way the walk cannot see: a scalar in its tag only, an
      item of a list without identity keys below its first level or in its tag only, or a keyed list
      that repeats an identity or holds an item without one. */
  ghost predicate Blind(b: Tree, a: Tree, f: Option<Field>, path: string)
    decreases a
  {
    match (b, a)
    case (Scalar(t, x, _), Scalar(t', y, _)) => x == y && t != t'
    case (Mapping(es, _), Mapping(fs, _)) =>
      exists i | 0 <= i < |fs| ::
        fs[i].key in Keys(es) &&
        Blind(es[IndexOf(es, fs[i].key)].value, fs[i].value, ChildSchema(f, fs[i].key), Join(path, fs[i].key))
    case (Sequence(xs, _), Sequence(ys, _)) =>
      var keys := IdentityKeys(f);
      if keys == [] then
        exists i | 0 <= i < |xs| && i < |ys| ::
          SameKind(xs[i], ys[i]) && NodeText(xs[i]) == NodeText(ys[i]) && Abs(xs[i]) != Abs(ys[i])
      else
        var bids, aids := Idents(xs, keys, path), Idents(ys, keys, path);
        !Told(aids) ||
        exists i | 0 <= i < |ys| ::
          aids[i].Some? && Find(bids, aids[i].value).Some? &&
          Blind(xs[Find(bids, aids[i].value).value], ys[i], ItemSchema(f), Items(path))
    case _ => false
  }

  lemma {:induction false} SameIndex(es: seq<Entry>, fs: seq<Entry>, k: string)
    requires |es| == |fs| && k in Keys(es) && forall i | 0 <= i < |es| :: es[i].key == fs[i].key
    ensures k in Keys(fs) && IndexOf(es, k) == IndexOf(fs, k)
  {
    assert fs[IndexOf(es, k)].key == k && es[IndexOf(fs, k)].key == k;
  }

  lemma {:induction false} NodesEqualAbs(a: Tree, b: Tree)
    requires NodesEqual(a, b)
    ensures Abs(a) == Abs(b)
  {
    match (a, b)
    case (Scalar(_, _, _), _) =>
    case (Mapping(es, n), Mapping(fs, m)) =>
      forall k ensures k in Keys(es) <==> k in Keys(fs) {
        if k in Keys(es) { assert fs[IndexOf(es, k)].key == k; }
        if k in Keys(fs) { assert es[IndexOf(fs, k)].key == k; }
      }
      forall k | k in Keys(es) ensures Abs(es[IndexOf(es, k)].value) == Abs(fs[IndexOf(fs, k)].value) {
        var i := IndexOf(es, k);
        SameIndex(es, fs, k);
        NodesEqualAbs(es[i].value, fs[i].value);
      }
      DictsEqual(es, fs, n, m);
    case (Sequence(xs, n), Sequence(ys, m)) =>
      forall i | 0 <= i < |xs| ensures Abs(xs[i]) == Abs(ys[i]) {
        NodesEqualAbs(xs[i], ys[i]);
      }
      ListsEqual(xs, ys, n, m);
  }

  /** When all items are identified, `Known` just unwraps. */
  lemma {:induction false} KnownAll(ids: seq<Option<Ident>>)
    requires !Unidentified(ids)
    ensures |Known(ids)| == |ids| && forall i | 0 <= i < |ids| :: ids[i] == Some(Known(ids)[i])
  {
    if ids != [] {
      assert ids[0].Some?;
      forall i | 0 <= i < |ids[1..]| ensures ids[1..][i].Some? {
        assert ids[i + 1].Some?;
      }
      KnownAll(ids[1..]);
    }
  }

  // ---- What an empty diff of one node means ----

  lemma {:induction false} MappingDiffEmpty(b: Tree, a: Tree, f: Option<Field>, path: string)
    requires b.Mapping? && a.Mapping? && !NodesEqual(b, a)
    ensures Diff(Some(b), a, f, path) == [] <==>
            Keys(b.entries) == Keys(a.entries) &&
            forall i | 0 <= i < |a.entries| ::
              Diff(Child(b, a.entries[i].key), a.entries[i].value, ChildSchema(f, a.entries[i].key),
                Join(path, a.entries[i].key)) == []
  {
    var es, fs := b.entries, a.entries;
    var removed := seq(|es|, i requires 0 <= i < |es| =>
      if es[i].key in Keys(fs) then [] else [Change(Join(path, es[i].key), Remove)]);
    var walked := seq(|fs|, i requires 0 <= i < |fs| =>
      Diff(Child(b, fs[i].key), fs[i].value, ChildSchema(f, fs[i].key), Join(path, fs[i].key)));
    assert Diff(Some(b), a, f, path) == Flatten(removed) + Flatten(walked);
    assert Flatten(removed) == [] <==> Keys(es) <= Keys(fs) by {
      if Flatten(removed) == [] {
        forall k | k in Keys(es) ensures k in Keys(fs) {
          assert removed[IndexOf(es, k)] == [];
        }
      }
    }
    if Flatten(walked) == [] {
      forall k | k in Keys(fs) ensures k in Keys(es) {
        assert walked[IndexOf(fs, k)] == [];
      }
      forall i | 0 <= i < |fs|
        ensures Diff(Child(b, fs[i].key), fs[i].value, ChildSchema(f, fs[i].key), Join(path, fs[i].key)) == []
      {
        assert walked[i] == [];
      }
    }
  }

  /** The walk of the items of a keyed list, as `Diff` performs it. */
  ghost function WalkedItems(xs: seq<Tree>, ys: seq<Tree>, f: Option<Field>, path: string): seq<seq<Change>> {
    var bids, aids := Idents(xs, IdentityKeys(f), path), Idents(ys, IdentityKeys(f), path);
    seq(|ys|, i requires 0 <= i < |ys| =>
      if aids[i].None? then []
      else if Find(bids, aids[i].value).None? then [Change(Items(path), Add)]
      else Diff(Some(xs[Find(bids, aids[i].value).value]), ys[i], ItemSchema(f), Items(path)))
  }

  lemma {:induction false} KeyedDiffIs(b: Tree, a: Tree, f: Option<Field>, path: string)
    requires b.Sequence? && a.Sequence? && !NodesEqual(b, a) && IdentityKeys(f) != []
    ensures var bids, aids := Idents(b.items, IdentityKeys(f), path), Idents(a.items, IdentityKeys(f), path);
            Diff(Some(b), a, f, path) == [] <==>
            Reordered(bids, aids, path) == [] &&
            Flatten(WalkedItems(b.items, a.items, f, path)) == [] &&
            Flatten(RemovedItems(bids, aids, path)) == []
  {
    var bids, aids := Idents(b.items, IdentityKeys(f), path), Idents(a.items, IdentityKeys(f), path);
    assert Diff(Some(b), a, f, path) ==
           Reordered(bids, aids, path) + Flatten(WalkedItems(b.items, a.items, f, path)) +
             Flatten(RemovedItems(bids, aids, path));
  }

  /** An empty diff of two keyed lists means the same identities in the same order. */
  lemma {:induction false} NoDiffSameIdents(xs: seq<Tree>, ys: seq<Tree>, f: Option<Field>, path: string)
    requires IdentityKeys(f) != []
    requires Told(Idents(xs, IdentityKeys(f), path)) && Told(Idents(ys, IdentityKeys(f), path))
    requires var bids, aids := Idents(xs, IdentityKeys(f), path), Idents(ys, IdentityKeys(f), path);
             Reordered(bids, aids, path) == [] && Flatten(WalkedItems(xs, ys, f, path)) == [] &&
             Flatten(RemovedItems(bids, aids, path)) == []
    ensures Idents(xs, IdentityKeys(f), path) == Idents(ys, IdentityKeys(f), path)
  {
    var bids, aids := Idents(xs, IdentityKeys(f), path), Idents(ys, IdentityKeys(f), path);
    forall x | x in aids ensures x in bids {
      var i :| 0 <= i < |aids| && aids[i] == x;
      assert WalkedItems(xs, ys, f, path)[i] == [];
    }
    forall x | x in bids ensures x in aids {
      var i :| 0 <= i < |bids| && bids[i] == x;
      assert RemovedItems(bids, aids, path)[i] == [];
    }
    assert (set x | x in aids) == (set x | x in bids);
    DistinctCount(aids);
    DistinctCount(bids);
    KnownAll(bids);
    KnownAll(aids);
  }

  lemma {:induction false} WalkedSame(xs: seq<Tree>, ys: seq<Tree>, f: Option<Field>, path: string, i: nat)
    requires var bids := Idents(xs, IdentityKeys(f), path);
             bids == Idents(ys, IdentityKeys(f), path) && !Repeats(bids) && !Unidentified(bids)
    requires i < |ys|
    ensures |xs| == |ys|
    ensures WalkedItems(xs, ys, f, path)[i] == Diff(Some(xs[i]), ys[i], ItemSchema(f), Items(path))
    ensures var bids := Idents(xs, IdentityKeys(f), path); RemovedItems(bids, bids, path)[i] == []
  {
    var bids := Idents(xs, IdentityKeys(f), path);
    assert |bids| == |xs| && |bids| == |Idents(ys, IdentityKeys(f), path)| == |ys|;
    assert bids[i].Some?;
    FindUnique(bids, i);
    assert bids[i] in bids;
  }

  lemma {:induction false} PartsEmpty(xs: seq<Tree>, ys: seq<Tree>, f: Option<Field>, path: string)
    requires IdentityKeys(f) != []
    requires Told(Idents(xs, IdentityKeys(f), path)) && Told(Idents(ys, IdentityKeys(f), path))
    ensures var bids, aids := Idents(xs, IdentityKeys(f), path), Idents(ys, IdentityKeys(f), path);
            (Reordered(bids, aids, path) == [] && Flatten(WalkedItems(xs, ys, f, path)) == [] &&
             Flatten(RemovedItems(bids, aids, path)) == []) <==>
            (bids == aids &&
             forall i | 0 <= i < |ys| && i < |xs| :: Diff(Some(xs[i]), ys[i], ItemSchema(f), Items(path)) == [])
  {
    var bids, aids := Idents(xs, IdentityKeys(f), path), Idents(ys, IdentityKeys(f), path);
    var walked, removed := WalkedItems(xs, ys, f, path), RemovedItems(bids, aids, path);
    if Reordered(bids, aids, path) == [] && Flatten(walked) == [] && Flatten(removed) == [] {
      NoDiffSameIdents(xs, ys, f, path);
    }
    if bids == aids {
      assert |xs| == |bids| && |ys| == |aids|;
      forall i | 0 <= i < |ys|
        ensures walked[i] == Diff(Some(xs[i]), ys[i], ItemSchema(f), Items(path)) && removed[i] == []
      {
        WalkedSame(xs, ys, f, path, i);
      }
      assert Flatten(removed) == [] && Reordered(bids, aids, path) == [];
    }
  }

  lemma {:induction false} KeyedDiffEmpty(b: Tree, a: Tree, f: Option<Field>, path: string)
    requires b.Sequence? && a.Sequence? && !NodesEqual(b, a) && IdentityKeys(f) != []
    requires Told(Idents(b.items, IdentityKeys(f), path)) && Told(Idents(a.items, IdentityKeys(f), path))
    ensures Diff(Some(b), a, f, path) == [] <==>
            Idents(b.items, IdentityKeys(f), path) == Idents(a.items, IdentityKeys(f), path) &&
            forall i | 0 <= i < |a.items| && i < |b.items| ::
              Diff(Some(b.items[i]), a.items[i], ItemSchema(f), Items(path)) == []
  {
    KeyedDiffIs(b, a, f, path);
    PartsEmpty(b.items, a.items, f, path);
  }

  lemma {:induction false} DistinctCount(ids: seq<Option<Ident>>)
    requires !Repeats(ids) && !Unidentified(ids)
    ensures |set x | x in ids| == |ids|
  {
    if ids != [] {
      var n := |ids| - 1;
      var rest := ids[..n];
      assert forall i | 0 <= i < n :: rest[i] == ids[i];
      assert !Repeats(rest) && !Unidentified(rest);
      DistinctCount(rest);
      assert ids == rest + [ids[n]];
      assert (set x | x in ids) == (set x | x in rest) + {ids[n]};
      assert ids[n] !in rest;
    }
  }

  // ---- The diff decides change ----

  /** Equal documents have an empty diff. */
  lemma {:induction false} EqualMeansNoDiff(b: Tree, a: Tree, f: Option<Field>, path: string)
    requires Keyed(b, f, path) && KeysDistinct(b) && KeysDistinct(a)
    requires Abs(b) == Abs(a)
    ensures Diff(Some(b), a, f, path) == []
    decreases a
  {
    if !NodesEqual(b, a) {
      match (b, a)
      case (Scalar(_, _, _), Scalar(_, _, _)) =>
      case (Mapping(es, n), Mapping(fs, m)) =>
        DictsEqual(es, fs, n, m);
        forall i | 0 <= i < |fs|
          ensures Diff(Child(b, fs[i].key), fs[i].value, ChildSchema(f, fs[i].key), Join(path, fs[i].key)) == []
        {
          FieldAt(fs, i);
          EqualMeansNoDiff(es[IndexOf(es, fs[i].key)].value, fs[i].value, ChildSchema(f, fs[i].key),
            Join(path, fs[i].key));
        }
        MappingDiffEmpty(b, a, f, path);
      case (Sequence(xs, n), Sequence(ys, m)) =>
        ListsEqual(xs, ys, n, m);
        if IdentityKeys(f) != [] {
          IdentsAbs(xs, ys, IdentityKeys(f), path);
          forall i | 0 <= i < |ys| ensures Diff(Some(xs[i]), ys[i], ItemSchema(f), Items(path)) == [] {
            EqualMeansNoDiff(xs[i], ys[i], ItemSchema(f), Items(path));
          }
          KeyedDiffEmpty(b, a, f, path);
        }
    }
  }

  /** An empty diff means equal documents, unless they differ in a blind spot. */
  lemma {:induction false} NoDiffMeansEqual(b: Tree, a: Tree, f: Option<Field>, path: string)
    requires Keyed(b, f, path) && KeysDistinct(b) && KeysDistinct(a)
    requires Diff(Some(b), a, f, path) == []
    ensures Abs(b) == Abs(a) <==> !Blind(b, a, f, path)
    decreases a, 1
  {
    match (b, a)
    case (Scalar(_, _, _), Scalar(_, _, _)) =>
    case (Mapping(_, _), Mapping(_, _)) => NoDiffMapping(b, a, f, path);
    case (Sequence(_, _), Sequence(_, _)) => NoDiffSequence(b, a, f, path);
    case _ =>
  }

  /** Mappings without a diff have the same keys, and no child has a diff. */
  lemma {:induction false} NoDiffChildren(b: Tree, a: Tree, f: Option<Field>, path: string)
    requires b.Mapping? && a.Mapping?
    requires Keyed(b, f, path) && KeysDistinct(b) && KeysDistinct(a)
    requires Diff(Some(b), a, f, path) == []
    ensures Keys(b.entries) == Keys(a.entries)
    ensures forall i | 0 <= i < |a.entries| ::
              Diff(Child(b, a.entries[i].key), a.entries[i].value, ChildSchema(f, a.entries[i].key),
                Join(path, a.entries[i].key)) == []
  {
    var es, fs := b.entries, a.entries;
    if NodesEqual(b, a) {
      NodesEqualAbs(b, a);
      DictsEqual(es, fs, b.note, a.note);
      forall i | 0 <= i < |fs|
        ensures Diff(Child(b, fs[i].key), fs[i].value, ChildSchema(f, fs[i].key), Join(path, fs[i].key)) == []
      {
        FieldAt(fs, i);
        EqualMeansNoDiff(es[IndexOf(es, fs[i].key)].value, fs[i].value, ChildSchema(f, fs[i].key),
          Join(path, fs[i].key));
      }
    } else {
      MappingDiffEmpty(b, a, f, path);
    }
  }

  lemma {:induction false} DictsEqualByIndex(es: seq<Entry>, fs: seq<Entry>, n: string, m: string)
    requires Keys(es) == Keys(fs) && Distinct(fs)
    ensures Abs(Mapping(es, n)) == Abs(Mapping(fs, m)) <==>
            forall i | 0 <= i < |fs| :: Abs(es[IndexOf(es, fs[i].key)].value) == Abs(fs[i].value)
  {
    DictsEqual(es, fs, n, m);
    forall i | 0 <= i < |fs| ensures fs[i].key in Keys(fs) && IndexOf(fs, fs[i].key) == i {
      FieldAt(fs, i);
    }
  }

  lemma {:induction false} NoDiffMapping(b: Tree, a: Tree, f: Option<Field>, path: string)
    requires b.Mapping? && a.Mapping?
    requires Keyed(b, f, path) && KeysDistinct(b) && KeysDistinct(a)
    requires Diff(Some(b), a, f, path) == []
    ensures Abs(b) == Abs(a) <==> !Blind(b, a, f, path)
    decreases a, 0
  {
    var es, fs := b.entries, a.entries;
    NoDiffChildren(b, a, f, path);
    forall i | 0 <= i < |fs|
      ensures Abs(es[IndexOf(es, fs[i].key)].value) == Abs(fs[i].value) <==>
              !Blind(es[IndexOf(es, fs[i].key)].value, fs[i].value, ChildSchema(f, fs[i].key), Join(path, fs[i].key))
    {
      NoDiffMeansEqual(es[IndexOf(es, fs[i].key)].value, fs[i].value, ChildSchema(f, fs[i].key), Join(path, fs[i].key));
    }
    DictsEqualByIndex(es, fs, b.note, a.note);
  }

  lemma {:induction false} NoDiffSequence(b: Tree, a: Tree, f: Option<Field>, path: string)
    requires b.Sequence? && a.Sequence?
    requires Keyed(b, f, path) && KeysDistinct(b) && KeysDistinct(a)
    requires Diff(Some(b), a, f, path) == []
    ensures Abs(b) == Abs(a) <==> !Blind(b, a, f, path)
    decreases a, 0
  {
    var xs, ys, keys := b.items, a.items, IdentityKeys(f);
    ListsEqual(xs, ys, b.note, a.note);
    if NodesEqual(b, a) {
      NodesEqualAbs(b, a);
    }
    if keys != [] {
      if Abs(b) == Abs(a) {
        IdentsAbs(xs, ys, keys, path);
      }
      if Told(Idents(ys, keys, path)) {
        NoDiffItems(b, a, f, path);
      }
    }
  }

  /** The same for keyed lists whose items can all be told apart. */
  lemma {:induction false} NoDiffItems(b: Tree, a: Tree, f: Option<Field>, path: string)
    requires b.Sequence? && a.Sequence? && IdentityKeys(f) != [] && Told(Idents(a.items, IdentityKeys(f), path))
    requires Keyed(b, f, path) && KeysDistinct(b) && KeysDistinct(a)
    requires Diff(Some(b), a, f, path) == []
    ensures Abs(b) == Abs(a) <==> !Blind(b, a, f, path)
    decreases a, 0, 0
  {
    var xs, ys := b.items, a.items;
    NoDiffPairs(b, a, f, path);
    BlindPairs(b, a, f, path);
    ListsEqual(xs, ys, b.note, a.note);
    forall i | 0 <= i < |ys|
      ensures Abs(xs[i]) == Abs(ys[i]) <==> !Blind(xs[i], ys[i], ItemSchema(f), Items(path))
    {
      NoDiffMeansEqual(xs[i], ys[i], ItemSchema(f), Items(path));
    }
  }

  /** Keyed lists without a diff have the same identities in the same order, and no item has a diff. */
  lemma {:induction false} NoDiffPairs(b: Tree, a: Tree, f: Option<Field>, path: string)
    requires b.Sequence? && a.Sequence? && IdentityKeys(f) != [] && Told(Idents(a.items, IdentityKeys(f), path))
    requires Keyed(b, f, path) && KeysDistinct(b) && KeysDistinct(a)
    requires Diff(Some(b), a, f, path) == []
    ensures Idents(b.items, IdentityKeys(f), path) == Idents(a.items, IdentityKeys(f), path) && |b.items| == |a.items|
    ensures forall i | 0 <= i < |a.items| :: Diff(Some(b.items[i]), a.items[i], ItemSchema(f), Items(path)) == []
  {
    var xs, ys := b.items, a.items;
    if NodesEqual(b, a) {
      NodesEqualAbs(b, a);
      ListsEqual(xs, ys, b.note, a.note);
      IdentsAbs(xs, ys, IdentityKeys(f), path);
      forall i | 0 <= i < |ys| ensures Diff(Some(xs[i]), ys[i], ItemSchema(f), Items(path)) == [] {
        EqualMeansNoDiff(xs[i], ys[i], ItemSchema(f), Items(path));
      }
    } else {
      KeyedDiffEmpty(b, a, f, path);
      assert |Idents(xs, IdentityKeys(f), path)| == |xs| && |Idents(ys, IdentityKeys(f), path)| == |ys|;
    }
  }

  /** Between keyed lists with the same identities only matched items can hide a difference. */
  lemma {:induction false} BlindPairs(b: Tree, a: Tree, f: Option<Field>, path: string)
    requires b.Sequence? && a.Sequence? && IdentityKeys(f) != [] && |b.items| == |a.items|
    requires Idents(b.items, IdentityKeys(f), path) == Idents(a.items, IdentityKeys(f), path)
    requires Told(Idents(a.items, IdentityKeys(f), path))
    ensures Blind(b, a, f, path) <==>
            exists i | 0 <= i < |a.items| :: Blind(b.items[i], a.items[i], ItemSchema(f), Items(path))
  {
    var ids := Idents(a.items, IdentityKeys(f), path);
    forall i | 0 <= i < |a.items| ensures ids[i].Some? && Find(ids, ids[i].value) == Some(i) {
      FindUnique(ids, i);
    }
  }
}
