/** When an empty diff means an unchanged document. */
module DiffLaws {
  import opened Wrappers
  import opened Trees
  import opened Schema
  import opened Identity
  import opened Diffing

  /** Lists without identity keys hold scalars only. */
  ghost predicate Plain(t: Tree, f: Option<Field>) {
    match t
    case Scalar(_, _, _) => true
    case Mapping(es, _) => forall i | 0 <= i < |es| :: Plain(es[i].value, ChildSchema(f, es[i].key))
    case Sequence(items, _) =>
      forall i | 0 <= i < |items| ::
        (IdentityKeys(f) == [] ==> items[i].Scalar?) && Plain(items[i], ItemSchema(f))
  }

  /** Every scalar has the tag its text resolves to. */
  ghost predicate Tagged(t: Tree, tagOf: string -> string) {
    match t
    case Scalar(tag, text, _) => tag == tagOf(text)
    case Mapping(es, _) => forall i | 0 <= i < |es| :: Tagged(es[i].value, tagOf)
    case Sequence(items, _) => forall i | 0 <= i < |items| :: Tagged(items[i], tagOf)
  }

  lemma {:induction false} NothingBlind(b: Tree, a: Tree, f: Option<Field>, path: string, tagOf: string -> string)
    requires Plain(b, f) && Tagged(b, tagOf) && Tagged(a, tagOf) && Keyed(a, f, path)
    ensures !Blind(b, a, f, path)
    decreases a
  {
    match (b, a)
    case (Scalar(_, _, _), Scalar(_, _, _)) =>
    case (Mapping(es, _), Mapping(fs, _)) =>
      forall i | 0 <= i < |fs| && fs[i].key in Keys(es)
        ensures !Blind(es[IndexOf(es, fs[i].key)].value, fs[i].value, ChildSchema(f, fs[i].key), Join(path, fs[i].key))
      {
        NothingBlind(es[IndexOf(es, fs[i].key)].value, fs[i].value, ChildSchema(f, fs[i].key), Join(path, fs[i].key),
          tagOf);
      }
    case (Sequence(xs, _), Sequence(ys, _)) =>
      if IdentityKeys(f) != [] {
        var bids, aids := Idents(xs, IdentityKeys(f), path), Idents(ys, IdentityKeys(f), path);
        forall i | 0 <= i < |ys| && aids[i].Some? && Find(bids, aids[i].value).Some?
          ensures !Blind(xs[Find(bids, aids[i].value).value], ys[i], ItemSchema(f), Items(path))
        {
          NothingBlind(xs[Find(bids, aids[i].value).value], ys[i], ItemSchema(f), Items(path), tagOf);
        }
      }
    case _ =>
  }

  /** The change list and the blind spots together decide change, on any two documents whose first
      is a sound base: they mean the same exactly when nothing is reported and nothing differs in a
      blind spot. So an empty change list misses an edit exactly when there is a blind spot. */
  lemma {:induction false} DiffMissesExactly(b: Tree, a: Tree, f: Option<Field>)
    requires Keyed(b, f, "") && KeysDistinct(b) && KeysDistinct(a)
    ensures Abs(b) == Abs(a) <==> SemanticDiff(b, a, f) == [] && !Blind(b, a, f, "")
  {
    if Abs(b) == Abs(a) {
      EqualMeansNoDiff(b, a, f, "");
    }
    if SemanticDiff(b, a, f) == [] {
      NoDiffMeansEqual(b, a, f, "");
    }
  }

  /** The diff decides change: on documents whose scalars carry the tag of their text and whose
      unkeyed lists are flat, they mean the same exactly when the diff is empty and the second one's
      list items can be told apart. */
  lemma {:induction false} DiffDecides(b: Tree, a: Tree, f: Option<Field>, tagOf: string -> string)
    requires Keyed(b, f, "") && KeysDistinct(b) && KeysDistinct(a)
    requires Plain(b, f) && Tagged(b, tagOf) && Tagged(a, tagOf)
    ensures SemanticDiff(b, a, f) == [] && Keyed(a, f, "") <==> Abs(b) == Abs(a)
  {
    DiffMissesExactly(b, a, f);
    if Keyed(a, f, "") {
      NothingBlind(b, a, f, "", tagOf);
    }
    if Abs(b) == Abs(a) {
      KeyedAbs(b, a, f, "");
    }
  }

  // ---- An edit that is not seen below is not seen above ----

  lemma {:induction false} SelfEqual(t: Tree)
    ensures NodesEqual(t, t)
  {
    match t
    case Scalar(_, _, _) =>
    case Mapping(es, _) =>
      forall i | 0 <= i < |es| ensures NodesEqual(es[i].value, es[i].value) {
        SelfEqual(es[i].value);
      }
    case Sequence(xs, _) =>
      forall i | 0 <= i < |xs| ensures NodesEqual(xs[i], xs[i]) {
        SelfEqual(xs[i]);
      }
  }

  /** A mapping with one value exchanged. */
  function Exchanged(es: seq<Entry>, i: nat, w: Tree): seq<Entry>
    requires i < |es|
  {
    es[i := es[i].(value := w)]
  }

  lemma {:induction false} ExchangedUnder(es: seq<Entry>, i: nat, w: Tree, j: nat)
    requires Distinct(es) && i < |es| && j < |es|
    ensures var fs := Exchanged(es, i, w);
            Distinct(fs) && Keys(fs) == Keys(es) && fs[j].key == es[j].key && fs[j].key in Keys(es)
            && IndexOf(es, fs[j].key) == j && IndexOf(fs, fs[j].key) == j
  {
    ExchangedKeys(es, i, w);
    FieldAt(es, j);
    FieldAt(Exchanged(es, i, w), j);
  }

  lemma {:induction false} ExchangedKeys(es: seq<Entry>, i: nat, w: Tree)
    requires i < |es|
    ensures var fs := Exchanged(es, i, w); Keys(fs) == Keys(es) && forall k | 0 <= k < |es| :: fs[k].key == es[k].key
  {
    var fs := Exchanged(es, i, w);
    assert forall k | 0 <= k < |es| :: fs[k].key == es[k].key;
    assert forall k | 0 <= k < |es| :: fs[k].key in Keys(es) && es[k].key in Keys(fs);
  }

  lemma {:induction false} FieldUnseen(es: seq<Entry>, i: nat, w: Tree, note: string, f: Option<Field>, path: string)
    requires Distinct(es) && i < |es|
    requires Diff(Some(es[i].value), w, ChildSchema(f, es[i].key), Join(path, es[i].key)) == []
    ensures Diff(Some(Mapping(es, note)), Mapping(Exchanged(es, i, w), note), f, path) == []
    ensures Abs(es[i].value) != Abs(w) ==> Abs(Mapping(es, note)) != Abs(Mapping(Exchanged(es, i, w), note))
  {
    var fs := Exchanged(es, i, w);
    var b, a := Mapping(es, note), Mapping(fs, note);
    forall j | 0 <= j < |fs|
      ensures Diff(Child(b, fs[j].key), fs[j].value, ChildSchema(f, fs[j].key), Join(path, fs[j].key)) == []
    {
      ExchangedUnder(es, i, w, j);
      SelfEqual(es[j].value);
    }
    ExchangedUnder(es, i, w, i);
    if !NodesEqual(b, a) {
      MappingDiffEmpty(b, a, f, path);
    }
    DictsEqual(es, fs, note, note);
  }

  lemma {:induction false} ItemUnseen(xs: seq<Tree>, i: nat, w: Tree, note: string, f: Option<Field>, path: string)
    requires i < |xs| && IdentityKeys(f) != [] && Told(Idents(xs, IdentityKeys(f), path))
    requires Selector(w, IdentityKeys(f), path) == Selector(xs[i], IdentityKeys(f), path)
    requires Diff(Some(xs[i]), w, ItemSchema(f), Items(path)) == []
    ensures Diff(Some(Sequence(xs, note)), Sequence(xs[i := w], note), f, path) == []
    ensures Abs(xs[i]) != Abs(w) ==> Abs(Sequence(xs, note)) != Abs(Sequence(xs[i := w], note))
  {
    var ys := xs[i := w];
    var b, a := Sequence(xs, note), Sequence(ys, note);
    IdentsSame(xs, ys, IdentityKeys(f), path);
    if !NodesEqual(b, a) {
      forall j | 0 <= j < |ys| ensures Diff(Some(xs[j]), ys[j], ItemSchema(f), Items(path)) == [] {
        SelfEqual(xs[j]);
      }
      KeyedDiffEmpty(b, a, f, path);
    }
    ListsEqual(xs, ys, note, note);
  }
}
