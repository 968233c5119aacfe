/** How the items of a keyed list are matched between two versions of the list. */
module Identity {
  import opened Wrappers
  import opened Trees
  import opened Schema

  /** An item's selector text and, in lists that permit duplicate selectors, its 1-based occurrence
      (0 elsewhere). The program renders the pair as `raw#nth`. */
  datatype Ident = Ident(raw: string, nth: nat)

  function NodeText(t: Tree): string {
    if t.Scalar? then t.text else ""
  }

  function IdentityText(item: Tree, keys: seq<string>): Option<string> {
    if keys == [] then Some("")
    else
      match Child(item, keys[0])
      case None => None
      case Some(v) =>
        match IdentityText(item, keys[1..])
        case None => None
        case Some(rest) => Some(keys[0] + "=" + NodeText(v) + "\0" + rest)
  }

  predicate OccurrencePath(path: string) {
    path == "search" || path == "failure_rules"
  }

  function Selector(item: Tree, keys: seq<string>, path: string): Option<string> {
    if path == "failure_rules" then
      var m := Child(item, "match");
      var s := Child(item, "status");
      if m.Some? && NodeText(m.value) != "" then Some("match=" + NodeText(m.value) + "\0")
      else if s.Some? then Some("status=" + NodeText(s.value) + "\0")
      else None
    else if item.Mapping? then IdentityText(item, keys)
    else None
  }

  /** How many of the first `n` items have this selector. */
  function Count(items: seq<Tree>, n: nat, raw: string, keys: seq<string>, path: string): nat
    requires n <= |items|
  {
    if n == 0 then 0
    else Count(items, n - 1, raw, keys, path) + (if Selector(items[n - 1], keys, path) == Some(raw) then 1 else 0)
  }

  function IdentAt(items: seq<Tree>, i: nat, keys: seq<string>, path: string): Option<Ident>
    requires i < |items|
  {
    match Selector(items[i], keys, path)
    case None => None
    case Some(raw) =>
      Some(Ident(raw, if OccurrencePath(path) then Count(items, i + 1, raw, keys, path) else 0))
  }

  function Idents(items: seq<Tree>, keys: seq<string>, path: string): seq<Option<Ident>> {
    seq(|items|, i requires 0 <= i < |items| => IdentAt(items, i, keys, path))
  }

  /** Position of the last item with this identity (a Go map filled in list order). */
  function Find(ids: seq<Option<Ident>>, id: Ident): (r: Option<nat>)
    ensures r.Some? <==> Some(id) in ids
    ensures r.Some? ==> r.value < |ids| && ids[r.value] == Some(id)
    ensures r.Some? ==> forall j | r.value < j < |ids| :: ids[j] != Some(id)
  {
    if ids == [] then None
    else if ids[|ids| - 1] == Some(id) then Some(|ids| - 1)
    else Find(ids[..|ids| - 1], id)
  }

  predicate Repeats(ids: seq<Option<Ident>>) {
    exists i, j | 0 <= i < j < |ids| :: ids[i].Some? && ids[i] == ids[j]
  }

  predicate Unidentified(ids: seq<Option<Ident>>) {
    exists i | 0 <= i < |ids| :: ids[i].None?
  }

  /** Every item has an identity and no two share one. */
  predicate Told(ids: seq<Option<Ident>>) {
    !Repeats(ids) && !Unidentified(ids)
  }

  lemma {:induction false} FindUnique(ids: seq<Option<Ident>>, i: nat)
    requires !Repeats(ids) && i < |ids| && ids[i].Some?
    ensures Find(ids, ids[i].value) == Some(i)
  {
    assert ids[i] == Some(ids[i].value);
  }

  /** Keys of every item of every keyed list are present, and no two items match each other. */
  ghost predicate Keyed(t: Tree, f: Option<Field>, path: string) {
    match t
    case Scalar(_, _, _) => true
    case Mapping(es, _) =>
      forall i | 0 <= i < |es| :: Keyed(es[i].value, ChildSchema(f, es[i].key), Join(path, es[i].key))
    case Sequence(items, _) =>
      (IdentityKeys(f) != [] ==>
        Told(Idents(items, IdentityKeys(f), path))) &&
      forall i | 0 <= i < |items| :: Keyed(items[i], ItemSchema(f), Items(path))
  }

  // ---- Identities depend on values only ----

  lemma {:induction false} ChildAbs(a: Tree, b: Tree, key: string)
    requires Abs(a) == Abs(b)
    ensures Child(a, key).Some? <==> Child(b, key).Some?
    ensures Child(a, key).Some? ==> Abs(Child(a, key).value) == Abs(Child(b, key).value)
  {
    if a.Mapping? {
      DictsEqual(a.entries, b.entries, a.note, b.note);
    }
  }

  lemma {:induction false} IdentityTextAbs(a: Tree, b: Tree, keys: seq<string>)
    requires Abs(a) == Abs(b)
    ensures IdentityText(a, keys) == IdentityText(b, keys)
  {
    if keys != [] {
      ChildAbs(a, b, keys[0]);
      IdentityTextAbs(a, b, keys[1..]);
    }
  }

  lemma {:induction false} SelectorAbs(a: Tree, b: Tree, keys: seq<string>, path: string)
    requires Abs(a) == Abs(b)
    ensures Selector(a, keys, path) == Selector(b, keys, path)
  {
    IdentityTextAbs(a, b, keys);
    ChildAbs(a, b, "match");
    ChildAbs(a, b, "status");
  }

  lemma {:induction false} CountSame(xs: seq<Tree>, ys: seq<Tree>, n: nat, raw: string, keys: seq<string>, path: string)
    requires |xs| == |ys| && n <= |xs|
    requires forall i | 0 <= i < |xs| :: Selector(xs[i], keys, path) == Selector(ys[i], keys, path)
    ensures Count(xs, n, raw, keys, path) == Count(ys, n, raw, keys, path)
  {
    if n > 0 {
      CountSame(xs, ys, n - 1, raw, keys, path);
    }
  }

  /** Lists with the same selectors, item by item, have the same identities. */
  lemma {:induction false} IdentsSame(xs: seq<Tree>, ys: seq<Tree>, keys: seq<string>, path: string)
    requires |xs| == |ys|
    requires forall i | 0 <= i < |xs| :: Selector(xs[i], keys, path) == Selector(ys[i], keys, path)
    ensures Idents(xs, keys, path) == Idents(ys, keys, path)
  {
    var a, b := Idents(xs, keys, path), Idents(ys, keys, path);
    forall i | 0 <= i < |xs| ensures a[i] == b[i] {
      IdentSame(xs, ys, i, keys, path);
    }
  }

  lemma {:induction false} IdentSame(xs: seq<Tree>, ys: seq<Tree>, i: nat, keys: seq<string>, path: string)
    requires i < |xs| == |ys|
    requires forall i | 0 <= i < |xs| :: Selector(xs[i], keys, path) == Selector(ys[i], keys, path)
    ensures IdentAt(xs, i, keys, path) == IdentAt(ys, i, keys, path)
  {
    if Selector(xs[i], keys, path).Some? {
      CountSame(xs, ys, i + 1, Selector(xs[i], keys, path).value, keys, path);
    }
  }

  lemma {:induction false} IdentsAbs(xs: seq<Tree>, ys: seq<Tree>, keys: seq<string>, path: string)
    requires |xs| == |ys| && forall i | 0 <= i < |xs| :: Abs(xs[i]) == Abs(ys[i])
    ensures Idents(xs, keys, path) == Idents(ys, keys, path)
  {
    forall i | 0 <= i < |xs| ensures Selector(xs[i], keys, path) == Selector(ys[i], keys, path) {
      SelectorAbs(xs[i], ys[i], keys, path);
    }
    IdentsSame(xs, ys, keys, path);
  }

  /** `Keyed` depends on the value of a tree only. */
  lemma {:induction false} KeyedAbs(a: Tree, b: Tree, f: Option<Field>, path: string)
    requires Abs(a) == Abs(b) && Keyed(a, f, path) && KeysDistinct(a) && KeysDistinct(b)
    ensures Keyed(b, f, path)
  {
    match a
    case Scalar(_, _, _) =>
    case Mapping(es, n) =>
      DictsEqual(es, b.entries, n, b.note);
      forall i | 0 <= i < |b.entries|
        ensures Keyed(b.entries[i].value, ChildSchema(f, b.entries[i].key), Join(path, b.entries[i].key))
      {
        FieldAt(b.entries, i);
        KeyedAbs(es[IndexOf(es, b.entries[i].key)].value, b.entries[i].value, ChildSchema(f, b.entries[i].key),
          Join(path, b.entries[i].key));
      }
    case Sequence(xs, n) =>
      ListsEqual(xs, b.items, n, b.note);
      IdentsAbs(xs, b.items, IdentityKeys(f), path);
      forall i | 0 <= i < |xs| ensures Keyed(b.items[i], ItemSchema(f), Items(path)) {
        KeyedAbs(xs[i], b.items[i], ItemSchema(f), Items(path));
      }
  }
}
