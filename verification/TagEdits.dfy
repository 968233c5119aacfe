/** Edits of scalar tags alone, which a merge drops. */
module TagEdits {
  import opened Wrappers
  import opened Trees
  import opened Schema
  import opened Identity
  import opened Merging
  import opened Diffing
  import MergeInPlace

  /** An edit of tags alone, outside lists without identity keys. */
  ghost predicate TextsSame(b: Tree, d: Tree, f: Option<Field>) {
    match (b, d)
    case (Scalar(_, text, _), Scalar(_, text', _)) => text == text'
    case (Mapping(es, _), Mapping(ds, _)) =>
      |es| == |ds| &&
      forall i | 0 <= i < |es| ::
        es[i].key == ds[i].key && TextsSame(es[i].value, ds[i].value, ChildSchema(f, es[i].key))
    case (Sequence(xs, _), Sequence(ys, _)) =>
      if IdentityKeys(f) == [] then xs == ys
      else |xs| == |ys| && forall i | 0 <= i < |xs| :: TextsSame(xs[i], ys[i], ItemSchema(f))
    case _ => false
  }

  /** Merging drops every such edit: the base comes back. */
  lemma {:induction false} TagEditMerges(b: Tree, d: Tree, f: Option<Field>, path: string)
    requires TextsSame(b, d, f) && KeysDistinct(b) && Keyed(b, f, path)
    ensures Merge(b, d, f, path) == Ok(b)
    decreases b, 1
  {
    match b
    case Scalar(_, _, _) =>
    case Mapping(_, _) => TagMapping(b, d, f, path);
    case Sequence(_, _) => TagSequence(b, d, f, path);
  }

  lemma {:induction false} TagMapping(b: Tree, d: Tree, f: Option<Field>, path: string)
    requires b.Mapping? && TextsSame(b, d, f) && KeysDistinct(b) && Keyed(b, f, path)
    ensures Merge(b, d, f, path) == Ok(b)
    decreases b, 0
  {
    var es, ds := b.entries, d.entries;
    SameKeys(es, ds);
    forall i | 0 <= i < |es| ensures MergeInPlace.MergedEntry(es, ds, f, path, i) == Ok(es[i].value) {
      FieldAt(ds, i);
      TagEditMerges(es[i].value, ds[i].value, ChildSchema(f, es[i].key), Join(path, es[i].key));
    }
    MappingMergesBack(b, d, f, path);
  }

  lemma {:induction false} SameKeys(es: seq<Entry>, ds: seq<Entry>)
    requires |es| == |ds| && forall i | 0 <= i < |es| :: es[i].key == ds[i].key
    ensures Keys(es) == Keys(ds) && MergeInPlace.AllIn(es, ds) && (Distinct(es) ==> Distinct(ds))
  {
    forall i | 0 <= i < |es| ensures es[i].key in Keys(ds) {
      assert ds[i].key == es[i].key;
    }
    forall i | 0 <= i < |ds| ensures ds[i].key in Keys(es) {
      assert ds[i].key == es[i].key;
    }
  }

  /** A mapping that gets no new keys and whose values all merge back merges back. */
  lemma {:induction false} MappingMergesBack(b: Tree, d: Tree, f: Option<Field>, path: string)
    requires b.Mapping? && d.Mapping? && Keys(b.entries) == Keys(d.entries) && MergeInPlace.AllIn(b.entries, d.entries)
    requires forall i | 0 <= i < |b.entries| ::
               MergeInPlace.MergedEntry(b.entries, d.entries, f, path, i) == Ok(b.entries[i].value)
    ensures Merge(b, d, f, path) == Ok(b)
  {
    var es, ds := b.entries, d.entries;
    var values := seq(|es|, i requires 0 <= i < |es| => es[i].value);
    SurvivingEvery(es, Keys(ds));
    MergeInPlace.MappingMerges(b, d, f, path, values);
    assert MergeInPlace.WithValues(es, values) == es;
    HasMember(NewKeys(es, ds, f));
  }

  lemma {:induction false} SurvivingEvery(es: seq<Entry>, wanted: set<string>)
    requires forall i | 0 <= i < |es| :: es[i].key in wanted
    ensures Surviving(es, wanted) == es
  {
    if es != [] {
      SurvivingEvery(es[1..], wanted);
    }
  }

  lemma {:induction false} HasMember(ks: seq<string>)
    ensures ks != [] ==> exists k :: k in ks
  {
    if ks != [] {
      assert ks[0] in ks;
    }
  }

  lemma {:induction false} TagSequence(b: Tree, d: Tree, f: Option<Field>, path: string)
    requires b.Sequence? && TextsSame(b, d, f) && KeysDistinct(b) && Keyed(b, f, path)
    ensures Merge(b, d, f, path) == Ok(b)
    decreases b, 0
  {
    var xs, ys, keys := b.items, d.items, IdentityKeys(f);
    if keys != [] {
      forall i | 0 <= i < |xs|
        ensures Selector(xs[i], keys, path) == Selector(ys[i], keys, path)
        ensures Merge(xs[i], ys[i], ItemSchema(f), Items(path)) == Ok(xs[i])
      {
        TextsSelector(xs[i], ys[i], ItemSchema(f), keys, path);
        TagEditMerges(xs[i], ys[i], ItemSchema(f), Items(path));
      }
      IdentsSame(xs, ys, keys, path);
      ListMergesBack(b, d, f, path);
    }
  }

  /** A list with the same identities whose items all merge back merges back. */
  lemma {:induction false} ListMergesBack(b: Tree, d: Tree, f: Option<Field>, path: string)
    requires b.Sequence? && d.Sequence? && IdentityKeys(f) != [] && |b.items| == |d.items|
    requires Idents(b.items, IdentityKeys(f), path) == Idents(d.items, IdentityKeys(f), path)
    requires Told(Idents(b.items, IdentityKeys(f), path))
    requires forall i | 0 <= i < |b.items| ::
               Merge(b.items[i], d.items[i], ItemSchema(f), Items(path)) == Ok(b.items[i])
    ensures Merge(b, d, f, path) == Ok(b)
  {
    var xs, ys, ids := b.items, d.items, Idents(b.items, IdentityKeys(f), path);
    forall i | 0 <= i < |xs| ensures ids[i].Some? && Find(ids, ids[i].value) == Some(i) {
      FindUnique(ids, i);
    }
    MergeInPlace.SequenceIs(b, d, f, path);
    MergeInPlace.CollectIs(MergeInPlace.MergedItems(xs, ys, ids, ids, f, path), true, xs);
  }

  lemma {:induction false} TextsChild(x: Tree, y: Tree, g: Option<Field>, k: string)
    requires TextsSame(x, y, g)
    ensures Child(x, k).Some? <==> Child(y, k).Some?
    ensures Child(x, k).Some? ==> NodeText(Child(x, k).value) == NodeText(Child(y, k).value)
  {
    if x.Mapping? {
      var es, ds := x.entries, y.entries;
      if k in Keys(es) {
        SameIndex(es, ds, k);
      }
      if k in Keys(ds) {
        assert es[IndexOf(ds, k)].key == k;
      }
    }
  }

  lemma {:induction false} TextsIdentity(x: Tree, y: Tree, g: Option<Field>, keys: seq<string>)
    requires TextsSame(x, y, g)
    ensures IdentityText(x, keys) == IdentityText(y, keys)
  {
    if keys != [] {
      TextsChild(x, y, g, keys[0]);
      TextsIdentity(x, y, g, keys[1..]);
    }
  }

  lemma {:induction false} TextsSelector(x: Tree, y: Tree, g: Option<Field>, keys: seq<string>, path: string)
    requires TextsSame(x, y, g)
    ensures Selector(x, keys, path) == Selector(y, keys, path)
  {
    TextsIdentity(x, y, g, keys);
    TextsChild(x, y, g, "match");
    TextsChild(x, y, g, "status");
  }
}
