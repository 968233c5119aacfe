/** Redaction as the program does it: node by node, in place. */
module RedactInPlace {
  import opened Trees
  import opened Schema
  import opened Redaction
  import opened NodeHeap

  /** `redactDescendantsWalk`. */
  method MaskDescendants(n: Node)
    requires n.Valid()
    modifies n.repr
    ensures n.Valid() && n.repr == old(n.repr) && n.value == MaskAll(old(n.value))
    decreases n.repr
  {
    if n.head.kind.IsScalar? {
      if Literal(n.head.text) {
        n.head := n.head.(text := KEEP, tag := "!!str");
      }
      n.value := Assemble(n.head, []);
      return;
    }
    ghost var before, reprs := n.Values(), n.Reprs();
    var k := 0;
    while k < |n.kids|
      invariant k <= |n.kids| && unchanged(n) && n.Shaped() && n.Reprs() == reprs
      invariant forall i | 0 <= i < |n.kids| :: n.kids[i].value == if i < k then MaskAll(before[i]) else before[i]
    {
      assert n.Below(k);
      label Before:
      MaskDescendants(n.kids[k]);
      forall i | 0 <= i < |n.kids| && i != k
        ensures n.kids[i].repr == reprs[i] && n.kids[i].value == old@Before(n.kids[i].value)
        ensures n.Below(i)
      {
        assert old@Before(n.Below(i));
        assert reprs[i] !! reprs[k];
      }
      assert n.Below(k) && n.Reprs() == reprs;
      k := k + 1;
    }
    MaskAssembled(n.head, before, n.Values());
    n.Refresh();
  }

  /** Hides the scalar entries of a mapping whose entries are all secret. */
  method MaskEntries(n: Node)
    requires n.Valid()
    modifies n.repr
    ensures n.Valid() && n.repr == old(n.repr) && n.value == Starred(old(n.value)) && n.head == old(n.head)
  {
    ghost var before, reprs := n.Values(), n.Reprs();
    var k := 0;
    while k < |n.kids|
      invariant k <= |n.kids| && unchanged(n) && n.Shaped() && n.Reprs() == reprs
      invariant forall i | 0 <= i < |n.kids| :: n.kids[i].value == if i < k then Mask(before[i]) else before[i]
    {
      assert n.Below(k);
      n.kids[k].ValueKind();
      label Before:
      if n.kids[k].head.kind.IsScalar? {
        MaskDescendants(n.kids[k]);
      }
      forall i | 0 <= i < |n.kids| && i != k
        ensures n.kids[i].repr == reprs[i] && n.kids[i].value == old@Before(n.kids[i].value)
        ensures n.Below(i)
      {
        assert old@Before(n.Below(i));
        assert reprs[i] !! reprs[k];
      }
      assert n.Below(k) && n.Reprs() == reprs;
      k := k + 1;
    }
    StarAssembled(n.head, before, n.Values());
    n.Refresh();
  }

  /** `redactValueWalk`. */
  method RedactHere(n: Node, secret: SecretPaths, path: string)
    requires n.Valid()
    modifies n.repr
    ensures n.Valid() && n.repr == old(n.repr) && n.value == RedactValue(secret, old(n.value), path)
    decreases n.repr, 1
  {
    if n.head.kind.IsScalar? {
      if secret(path) {
        MaskDescendants(n);
      }
      return;
    }
    if secret(path) || secret(Items(path)) {
      MaskDescendants(n);
      return;
    }
    if n.head.kind.IsMapping? && secret(path + ".*") {
      StarIsRedacted(secret, n.value, path);
      MaskEntries(n);
    }
    RedactNode(n, secret, path);
  }

  /** `redactNodeWalk`. */
  method RedactNode(n: Node, secret: SecretPaths, path: string)
    requires n.Valid()
    modifies n.repr
    ensures n.Valid() && n.repr == old(n.repr) && n.value == Redact(secret, old(n.value), path)
    decreases n.repr, 0
  {
    if n.head.kind.IsScalar? {
      return;
    }
    ghost var before, reprs := n.Values(), n.Reprs();
    var k := 0;
    while k < |n.kids|
      invariant k <= |n.kids| && unchanged(n) && n.Shaped() && n.Reprs() == reprs
      invariant forall i | 0 <= i < |n.kids| ::
        n.kids[i].value == if i < k then RedactValue(secret, before[i], KidPath(n.head, path, i)) else before[i]
    {
      assert n.Below(k);
      label Before:
      RedactHere(n.kids[k], secret, KidPath(n.head, path, k));
      forall i | 0 <= i < |n.kids| && i != k
        ensures n.kids[i].repr == reprs[i] && n.kids[i].value == old@Before(n.kids[i].value)
        ensures n.Below(i)
      {
        assert old@Before(n.Below(i));
        assert reprs[i] !! reprs[k];
      }
      assert n.Below(k) && n.Reprs() == reprs;
      k := k + 1;
    }
    RedactAssembled(secret, n.head, before, n.Values(), path);
    n.Refresh();
  }

  /** A mapping with its scalar entries masked. */
  function Starred(t: Tree): Tree {
    match t
    case Scalar(_, _, _) => t
    case Mapping(es, note) =>
      Mapping(seq(|es|, i requires 0 <= i < |es| => es[i].(value := Mask(es[i].value))), note)
    case Sequence(items, note) => Sequence(seq(|items|, i requires 0 <= i < |items| => Mask(items[i])), note)
  }

  lemma {:induction false} StarAssembled(h: Head, before: seq<Tree>, after: seq<Tree>)
    requires |before| == |after| && Fits(h, |before|)
    requires forall i | 0 <= i < |before| :: after[i] == Mask(before[i])
    ensures Assemble(h, after) == Starred(Assemble(h, before))
  {
  }

  lemma {:induction false} RedactAssembled(secret: SecretPaths, h: Head, before: seq<Tree>, after: seq<Tree>,
                                           path: string)
    requires |before| == |after| && Fits(h, |before|) && !h.kind.IsScalar?
    requires forall i | 0 <= i < |before| :: after[i] == RedactValue(secret, before[i], KidPath(h, path, i))
    ensures Assemble(h, after) == Redact(secret, Assemble(h, before), path)
  {
  }

  lemma {:induction false} MaskTwice(t: Tree)
    ensures Mask(Mask(t)) == Mask(t) && (Mask(t).Scalar? <==> t.Scalar?) && (!t.Scalar? ==> Mask(t) == t)
  {
    assert KEEP != "" && KEEP[0] != '$';
  }

  /** One entry of a mapping with secret entries: masked first, walked after. */
  lemma {:induction false} MaskedThenWalked(secret: SecretPaths, t: Tree, path: string)
    ensures RedactValue(secret, Mask(t), path) == if t.Scalar? then Mask(t) else RedactValue(secret, t, path)
  {
    MaskTwice(t);
  }

  /** Masking the entries first and then walking is the walk with its star. */
  lemma {:induction false} StarIsRedacted(secret: SecretPaths, t: Tree, path: string)
    requires t.Mapping?
    ensures Redact(secret, Starred(t), path) == Redact(secret, t, path, true)
  {
    var a, b := Redact(secret, Starred(t), path), Redact(secret, t, path, true);
    forall i | 0 <= i < |t.entries| ensures a.entries[i] == b.entries[i] {
      MaskedThenWalked(secret, t.entries[i].value, Join(path, t.entries[i].key));
    }
  }

  lemma {:induction false} MaskAssembled(h: Head, before: seq<Tree>, after: seq<Tree>)
    requires |before| == |after| && Fits(h, |before|) && !h.kind.IsScalar?
    requires forall i | 0 <= i < |before| :: after[i] == MaskAll(before[i])
    ensures Assemble(h, after) == MaskAll(Assemble(h, before))
  {
  }
}
