/** Facts that tie a tree to its redacted rendering. */
module Masking {
  import opened Wrappers
  import opened Trees
  import opened Schema
  import opened Redaction
  import opened Identity

  /** `m` is `b` with some of its literals hidden. */
  ghost predicate Masks(b: Tree, m: Tree) {
    match b
    case Scalar(_, text, note) => m == b || (Literal(text) && m == Scalar("!!str", KEEP, note))
    case Mapping(es, note) =>
      m.Mapping? && m.note == note && |m.entries| == |es| &&
      forall i | 0 <= i < |es| ::
        m.entries[i].key == es[i].key && m.entries[i].keyNote == es[i].keyNote && Masks(es[i].value, m.entries[i].value)
    case Sequence(items, note) =>
      m.Sequence? && m.note == note && |m.items| == |items| && forall i | 0 <= i < |items| ::
        Masks(items[i], m.items[i])
  }

  lemma {:induction false} MaskAllMasks(t: Tree)
    ensures Masks(t, MaskAll(t))
  {
    match t
    case Scalar(_, _, _) =>
    case Mapping(es, _) =>
      forall i | 0 <= i < |es| ensures Masks(es[i].value, MaskAll(es[i].value)) {
        MaskAllMasks(es[i].value);
      }
    case Sequence(items, _) =>
      forall i | 0 <= i < |items| ensures Masks(items[i], MaskAll(items[i])) {
        MaskAllMasks(items[i]);
      }
  }

  lemma {:induction false} RedactMasks(secret: SecretPaths, t: Tree, path: string, star: bool)
    ensures Masks(t, Redact(secret, t, path, star))
    decreases t, 0
  {
    match t
    case Scalar(_, _, _) =>
    case Mapping(es, _) =>
      forall i | 0 <= i < |es| ensures Masks(es[i].value, RedactValue(secret, es[i].value, Join(path, es[i].key))) {
        RedactValueMasks(secret, es[i].value, Join(path, es[i].key));
      }
    case Sequence(items, _) =>
      forall i | 0 <= i < |items| ensures Masks(items[i], RedactValue(secret, items[i], Items(path))) {
        RedactValueMasks(secret, items[i], Items(path));
      }
  }

  lemma {:induction false} RedactValueMasks(secret: SecretPaths, t: Tree, path: string)
    ensures Masks(t, RedactValue(secret, t, path))
    decreases t, 1
  {
    MaskAllMasks(t);
    RedactMasks(secret, t, path, t.Mapping? && secret(path + ".*"));
  }

  lemma {:induction false} MasksKeys(es: seq<Entry>, ms: seq<Entry>)
    requires |es| == |ms| && forall i | 0 <= i < |es| :: ms[i].key == es[i].key
    ensures Keys(es) == Keys(ms)
    ensures forall k | k in Keys(es) :: IndexOf(es, k) == IndexOf(ms, k)
  {
    assert forall i | 0 <= i < |es| :: es[i].key in Keys(ms) && ms[i].key in Keys(es);
    forall k | k in Keys(es) ensures IndexOf(es, k) == IndexOf(ms, k) {
      var i, j := IndexOf(es, k), IndexOf(ms, k);
      assert ms[i].key == k && es[j].key == k;
    }
  }

  lemma {:induction false} MasksDistinct(b: Tree, m: Tree)
    requires Masks(b, m) && KeysDistinct(b)
    ensures KeysDistinct(m)
  {
    match b
    case Scalar(_, _, _) =>
    case Mapping(es, _) =>
      forall i | 0 <= i < |es| ensures KeysDistinct(m.entries[i].value) {
        MasksDistinct(es[i].value, m.entries[i].value);
      }
    case Sequence(items, _) =>
      forall i | 0 <= i < |items| ensures KeysDistinct(m.items[i]) {
        MasksDistinct(items[i], m.items[i]);
      }
  }

  // ---- Schemas whose identity fields are not secret ----

  /** No list below has identity keys. */
  predicate NoKeys(f: Field) {
    f.identity == [] && (forall i | 0 <= i < |f.children| :: NoKeys(f.children[i])) &&
      (f.item.Some? ==> NoKeys(f.item.value))
  }

  /** Redaction leaves the identity fields of every keyed list alone: neither they nor the list and
      its items are secret, and secret containers hold no keyed list. TokenRoute's schema is like
      that. */
  predicate Clear(secret: SecretPaths, f: Field, wild: string) {
    (f.identity != [] ==>
       !secret(wild) && !ContainerSecret(secret, Items(wild)) && !secret(Items(wild) + ".*") &&
       forall k | k in f.identity + ["match", "status"] :: !secret(Join(Items(wild), k))) &&
    (ContainerSecret(secret, wild) ==> NoKeys(f)) &&
    (forall i | 0 <= i < |f.children| :: Clear(secret, f.children[i], Join(wild, f.children[i].name))) &&
    (f.item.Some? ==> Clear(secret, f.item.value, Items(wild)))
  }

  predicate ClearAt(secret: SecretPaths, f: Option<Field>, wild: string) {
    f.Some? ==> Clear(secret, f.value, wild)
  }

  predicate NoKeysAt(f: Option<Field>) {
    f.Some? ==> NoKeys(f.value)
  }

  lemma {:induction false} FindChildIn(cs: seq<Field>, key: string)
    ensures FindChild(cs, key).Some? ==> exists i | 0 <= i < |cs| ::
            cs[i] == FindChild(cs, key).value && cs[i].name == key
  {
    if cs != [] && cs[0].name != key {
      FindChildIn(cs[1..], key);
      if FindChild(cs, key).Some? {
        var i :| 0 <= i < |cs[1..]| && cs[1..][i] == FindChild(cs, key).value && cs[1..][i].name == key;
        assert cs[i + 1] == FindChild(cs, key).value;
      }
    }
  }

  lemma {:induction false} ClearBelow(secret: SecretPaths, f: Option<Field>, wild: string, key: string)
    requires ClearAt(secret, f, wild)
    ensures ClearAt(secret, ChildSchema(f, key), Join(wild, key))
    ensures ClearAt(secret, ItemSchema(f), Items(wild))
    ensures ContainerSecret(secret, wild) ==> NoKeysAt(f)
  {
    if f.Some? {
      FindChildIn(f.value.children, key);
    }
  }

  lemma {:induction false} NoKeysBelow(f: Option<Field>, key: string)
    requires NoKeysAt(f)
    ensures NoKeysAt(ChildSchema(f, key)) && NoKeysAt(ItemSchema(f)) && IdentityKeys(f) == []
  {
    if f.Some? {
      FindChildIn(f.value.children, key);
    }
  }

  // ---- Identities survive redaction ----

  /** In every keyed list, `b` and `m` have the same identities. */
  ghost predicate SameIdents(b: Tree, m: Tree, f: Option<Field>, path: string) {
    match (b, m)
    case (Mapping(es, _), Mapping(ms, _)) =>
      |es| == |ms| && forall i | 0 <= i < |es| ::
        SameIdents(es[i].value, ms[i].value, ChildSchema(f, es[i].key), Join(path, es[i].key))
    case (Sequence(xs, _), Sequence(ys, _)) =>
      |xs| == |ys| &&
      (IdentityKeys(f) != [] ==> Idents(xs, IdentityKeys(f), path) == Idents(ys, IdentityKeys(f), path)) &&
      forall i | 0 <= i < |xs| :: SameIdents(xs[i], ys[i], ItemSchema(f), Items(path))
    case _ => true
  }

  lemma {:induction false} NoKeysSameIdents(b: Tree, m: Tree, f: Option<Field>, path: string)
    requires Masks(b, m) && NoKeysAt(f)
    ensures SameIdents(b, m, f, path)
  {
    match b
    case Scalar(_, _, _) =>
    case Mapping(es, _) =>
      forall i | 0 <= i < |es|
        ensures SameIdents(es[i].value, m.entries[i].value, ChildSchema(f, es[i].key), Join(path, es[i].key))
      {
        NoKeysBelow(f, es[i].key);
        NoKeysSameIdents(es[i].value, m.entries[i].value, ChildSchema(f, es[i].key), Join(path, es[i].key));
      }
    case Sequence(xs, _) =>
      NoKeysBelow(f, "");
      forall i | 0 <= i < |xs| ensures SameIdents(xs[i], m.items[i], ItemSchema(f), Items(path)) {
        NoKeysSameIdents(xs[i], m.items[i], ItemSchema(f), Items(path));
      }
  }

  /** A field at a path that is not secret keeps its text. */
  lemma {:induction false} FieldKept(secret: SecretPaths, item: Tree, path: string, k: string)
    requires !ContainerSecret(secret, path) && !secret(path + ".*") && !secret(Join(path, k))
    ensures var m := RedactValue(secret, item, path);
            (m.Mapping? <==> item.Mapping?) &&
            (Child(m, k).Some? <==> Child(item, k).Some?) &&
            (Child(item, k).Some? ==> NodeText(Child(m, k).value) == NodeText(Child(item, k).value))
  {
    if item.Mapping? {
      var m := RedactValue(secret, item, path);
      assert m == Redact(secret, item, path, false);
      MasksKeys(item.entries, m.entries);
      if k in Keys(item.entries) {
        var i := IndexOf(item.entries, k);
        assert m.entries[i].value == RedactValue(secret, item.entries[i].value, Join(path, k));
        RedactValueMasks(secret, item.entries[i].value, Join(path, k));
      }
    }
  }

  lemma {:induction false} TextKept(secret: SecretPaths, item: Tree, path: string, keys: seq<string>)
    requires !ContainerSecret(secret, path) && !secret(path + ".*") && forall k | k in keys :: !secret(Join(path, k))
    ensures IdentityText(RedactValue(secret, item, path), keys) == IdentityText(item, keys)
  {
    if keys != [] {
      FieldKept(secret, item, path, keys[0]);
      TextKept(secret, item, path, keys[1..]);
    }
  }

  lemma {:induction false} SelectorKept(secret: SecretPaths, item: Tree, f: Field, wild: string)
    requires Clear(secret, f, wild) && f.identity != []
    ensures Selector(RedactValue(secret, item, Items(wild)), f.identity, wild) == Selector(item, f.identity, wild)
  {
    var p := Items(wild);
    assert forall k | k in f.identity :: k in f.identity + ["match", "status"];
    assert "match" in f.identity + ["match", "status"] && "status" in f.identity + ["match", "status"];
    TextKept(secret, item, p, f.identity);
    FieldKept(secret, item, p, "match");
    FieldKept(secret, item, p, "status");
  }

  lemma {:induction false} RedactSameIdents(secret: SecretPaths, t: Tree, f: Option<Field>, path: string, star: bool)
    requires ClearAt(secret, f, path)
    ensures SameIdents(t, Redact(secret, t, path, star), f, path)
    decreases t, 0
  {
    match t
    case Scalar(_, _, _) =>
    case Mapping(es, _) =>
      var ms := Redact(secret, t, path, star).entries;
      forall i | 0 <= i < |es|
        ensures SameIdents(es[i].value, ms[i].value, ChildSchema(f, es[i].key), Join(path, es[i].key))
      {
        ClearBelow(secret, f, path, es[i].key);
        if !(star && es[i].value.Scalar?) {
          RedactValueSameIdents(secret, es[i].value, ChildSchema(f, es[i].key), Join(path, es[i].key));
        }
      }
    case Sequence(xs, _) =>
      var ys := Redact(secret, t, path, star).items;
      ClearBelow(secret, f, path, "");
      if IdentityKeys(f) != [] {
        forall i | 0 <= i < |xs|
          ensures Selector(xs[i], IdentityKeys(f), path) == Selector(ys[i], IdentityKeys(f), path)
        {
          SelectorKept(secret, xs[i], f.value, path);
        }
        IdentsSame(xs, ys, IdentityKeys(f), path);
      }
      forall i | 0 <= i < |xs| ensures SameIdents(xs[i], ys[i], ItemSchema(f), Items(path)) {
        RedactValueSameIdents(secret, xs[i], ItemSchema(f), Items(path));
      }
  }

  lemma {:induction false} RedactValueSameIdents(secret: SecretPaths, t: Tree, f: Option<Field>, path: string)
    requires ClearAt(secret, f, path)
    ensures SameIdents(t, RedactValue(secret, t, path), f, path)
    decreases t, 1
  {
    if !t.Scalar? {
      if ContainerSecret(secret, path) {
        ClearBelow(secret, f, path, "");
        MaskAllMasks(t);
        NoKeysSameIdents(t, MaskAll(t), f, path);
      } else {
        RedactSameIdents(secret, t, f, path, t.Mapping? && secret(path + ".*"));
      }
    }
  }

  /** `Keyed` carries over to a tree with the same keys and identities. */
  lemma {:induction false} MasksKeyed(b: Tree, m: Tree, f: Option<Field>, path: string)
    requires Masks(b, m) && SameIdents(b, m, f, path)
    ensures Keyed(b, f, path) <==> Keyed(m, f, path)
  {
    match b
    case Scalar(_, _, _) =>
    case Mapping(es, _) =>
      forall i | 0 <= i < |es|
        ensures Keyed(es[i].value, ChildSchema(f, es[i].key), Join(path, es[i].key)) <==>
                Keyed(m.entries[i].value, ChildSchema(f, es[i].key), Join(path, es[i].key))
      {
        MasksKeyed(es[i].value, m.entries[i].value, ChildSchema(f, es[i].key), Join(path, es[i].key));
      }
    case Sequence(xs, _) =>
      forall i | 0 <= i < |xs|
        ensures Keyed(xs[i], ItemSchema(f), Items(path)) <==> Keyed(m.items[i], ItemSchema(f), Items(path))
      {
        MasksKeyed(xs[i], m.items[i], ItemSchema(f), Items(path));
      }
  }
}
