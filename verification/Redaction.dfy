/** Redaction of a configuration tree for snapshots and diffs. */
module Redaction {
  import opened Wrappers
  import opened Trees
  import opened Schema

  /** Hides a literal scalar at a secret place. */
  function Mask(t: Tree): Tree {
    if t.Scalar? && Literal(t.text) then Scalar("!!str", KEEP, t.note) else t
  }

  /** Masks every scalar of the subtree (`redactDescendantsWalk`). */
  function MaskAll(t: Tree): Tree {
    match t
    case Scalar(_, _, _) => Mask(t)
    case Mapping(es, note) =>
      Mapping(seq(|es|, i requires 0 <= i < |es| => es[i].(value := MaskAll(es[i].value))), note)
    case Sequence(items, note) =>
      Sequence(seq(|items|, i requires 0 <= i < |items| => MaskAll(items[i])), note)
  }

  /** `redactNodeWalk`; `star` says that this mapping's scalar entries were masked before. */
  function Redact(secret: SecretPaths, t: Tree, path: string, star: bool := false): Tree
    decreases t, 0
  {
    match t
    case Scalar(_, _, _) => t
    case Mapping(es, note) =>
      Mapping(seq(|es|, i requires 0 <= i < |es| =>
        es[i].(value :=
          if star && es[i].value.Scalar? then Mask(es[i].value)
          else RedactValue(secret, es[i].value, Join(path, es[i].key)))), note)
    case Sequence(items, note) =>
      Sequence(seq(|items|, i requires 0 <= i < |items| => RedactValue(secret, items[i], Items(path))), note)
  }

  /** `redactValueWalk`. */
  function RedactValue(secret: SecretPaths, t: Tree, path: string): Tree
    decreases t, 1
  {
    if t.Scalar? then (if secret(path) then Mask(t) else t)
    else if secret(path) || secret(Items(path)) then MaskAll(t)
    else Redact(secret, t, path, t.Mapping? && secret(path + ".*"))
  }

  // ---- The independent description: which positions are secret ----

  /** The wildcard path of the node at `ps` below a node whose own path is `path`. */
  function WildAt(t: Tree, path: string, ps: seq<nat>): string
    requires At(t, ps).Some?
    decreases |ps|
  {
    if ps == [] then path
    else WildAt(Children(t)[ps[0]], ChildPath(t, path, ps[0]), ps[1..])
  }

  lemma {:induction false} Prefix(t: Tree, ps: seq<nat>, j: nat)
    requires At(t, ps).Some? && j <= |ps|
    ensures At(t, ps[..j]).Some?
    ensures j < |ps| ==> !At(t, ps[..j]).value.Scalar?
    decreases |ps|
  {
    if j > 0 {
      Prefix(Children(t)[ps[0]], ps[1..], j - 1);
      assert ps[..j][1..] == ps[1..][..j - 1];
    }
  }

  /** The wildcard path of the first `j` steps of `ps`. */
  function WildPrefix(t: Tree, path: string, ps: seq<nat>, j: nat): string
    requires At(t, ps).Some? && j <= |ps|
  {
    Prefix(t, ps, j);
    WildAt(t, path, ps[..j])
  }

  /** A node at `ps` is covered when its own path is secret, or a container on the way down (the
      root excepted) has a secret path or secret items, or its parent mapping has secret entries. */
  ghost predicate Covered(secret: SecretPaths, t: Tree, path: string, ps: seq<nat>)
    requires At(t, ps).Some?
  {
    ps != [] &&
    (|| secret(WildPrefix(t, path, ps, |ps|))
     || (exists j :: 0 < j < |ps| && ContainerSecret(secret, WildPrefix(t, path, ps, j)))
     || (|ps| > 1 && ParentIsMapping(t, ps) && secret(WildPrefix(t, path, ps, |ps| - 1) + ".*")))
  }

  predicate ContainerSecret(secret: SecretPaths, path: string) {
    secret(path) || secret(Items(path))
  }

  predicate ParentIsMapping(t: Tree, ps: seq<nat>)
    requires At(t, ps).Some? && ps != []
  {
    Prefix(t, ps, |ps| - 1);
    At(t, ps[..|ps| - 1]).value.Mapping?
  }

  /** Same node but for its children: kind, tag, text, comments, keys and child count agree. */
  predicate SameShape(a: Tree, b: Tree) {
    match a
    case Scalar(_, _, _) => a == b
    case Mapping(es, note) =>
      b.Mapping? && b.note == note && |b.entries| == |es| &&
      forall i | 0 <= i < |es| :: b.entries[i].key == es[i].key && b.entries[i].keyNote == es[i].keyNote
    case Sequence(items, note) => b.Sequence? && b.note == note && |b.items| == |items|
  }

  /** What redaction must leave at a position. */
  predicate RedactedTo(covered: bool, before: Tree, after: Tree) {
    if before.Scalar? && covered && Literal(before.text) then after == Scalar("!!str", KEEP, before.note)
    else SameShape(before, after)
  }

  lemma {:induction false} MaskAllAt(t: Tree, ps: seq<nat>)
    ensures At(MaskAll(t), ps).Some? <==> At(t, ps).Some?
    ensures At(t, ps).Some? ==> RedactedTo(true, At(t, ps).value, At(MaskAll(t), ps).value)
    decreases |ps|
  {
    assert |Children(MaskAll(t))| == |Children(t)|;
    if ps != [] && ps[0] < |Children(t)| {
      assert Children(MaskAll(t))[ps[0]] == MaskAll(Children(t)[ps[0]]);
      MaskAllAt(Children(t)[ps[0]], ps[1..]);
    }
  }

  lemma {:induction false} WildFirst(t: Tree, path: string, ps: seq<nat>)
    requires At(t, ps).Some? && ps != []
    ensures WildPrefix(t, path, ps, 1) == ChildPath(t, path, ps[0])
  {
    Prefix(t, ps, 1);
    var c, cp := Children(t)[ps[0]], ChildPath(t, path, ps[0]);
    assert ps[..1][1..] == [];
    assert WildAt(c, cp, []) == cp;
  }

  /** `Covered` one step down. */
  lemma {:induction false} CoveredBelow(secret: SecretPaths, t: Tree, path: string, ps: seq<nat>)
    requires At(t, ps).Some? && |ps| > 1
    requires var c := Children(t)[ps[0]]; c.Scalar? || !ContainerSecret(secret, ChildPath(t, path, ps[0]))
    requires !(Children(t)[ps[0]].Mapping? && |ps| == 2 && secret(ChildPath(t, path, ps[0]) + ".*"))
    ensures var c := Children(t)[ps[0]];
            At(c, ps[1..]).Some? &&
            (Covered(secret, t, path, ps) <==> Covered(secret, c, ChildPath(t, path, ps[0]), ps[1..]))
  {
    var c, cp, qs := Children(t)[ps[0]], ChildPath(t, path, ps[0]), ps[1..];
    forall j | 0 < j <= |ps| ensures WildPrefix(t, path, ps, j) == WildPrefix(c, cp, qs, j - 1) {
      assert ps[..j][1..] == qs[..j - 1];
      Prefix(t, ps, j);
    }
    assert WildPrefix(c, cp, qs, 0) == cp;
    assert ps[..|ps| - 1][1..] == qs[..|qs| - 1];
    Prefix(t, ps, |ps| - 1);
    if j :| 0 < j < |ps| && ContainerSecret(secret, WildPrefix(t, path, ps, j)) {
      Prefix(t, ps, 1);
      assert ps[..1][1..] == [];
      assert j != 1;
      assert ContainerSecret(secret, WildPrefix(c, cp, qs, j - 1));
    }
    if j :| 0 < j < |qs| && ContainerSecret(secret, WildPrefix(c, cp, qs, j)) {
      assert ContainerSecret(secret, WildPrefix(t, path, ps, j + 1));
    }
  }

  lemma {:induction false} RedactAt(secret: SecretPaths, t: Tree, path: string, star: bool, ps: seq<nat>)
    ensures At(Redact(secret, t, path, star), ps).Some? <==> At(t, ps).Some?
    ensures At(t, ps).Some? ==>
      RedactedTo(Covered(secret, t, path, ps) || (star && t.Mapping? && |ps| == 1),
                 At(t, ps).value, At(Redact(secret, t, path, star), ps).value)
    decreases |ps|
  {
    var r := Redact(secret, t, path, star);
    assert |Children(r)| == |Children(t)|;
    if ps == [] || ps[0] >= |Children(t)| {
      return;
    }
    var c, cp, qs := Children(t)[ps[0]], ChildPath(t, path, ps[0]), ps[1..];
    if star && t.Mapping? && c.Scalar? {
      assert Children(r)[ps[0]] == Mask(c);
      return;
    }
    assert Children(r)[ps[0]] == RedactValue(secret, c, cp);
    if c.Scalar? {
      if qs == [] {
        WildFirst(t, path, ps);
      }
    } else if ContainerSecret(secret, cp) {
      MaskAllAt(c, qs);
      if qs != [] && At(t, ps).Some? {
        WildFirst(t, path, ps);
      }
    } else {
      RedactBelow(secret, t, path, ps);
    }
  }

  /** The step of `RedactAt` through a container that is not itself secret. */
  lemma {:induction false} RedactBelow(secret: SecretPaths, t: Tree, path: string, ps: seq<nat>)
    requires ps != [] && ps[0] < |Children(t)|
    requires var c := Children(t)[ps[0]]; !c.Scalar? && !ContainerSecret(secret, ChildPath(t, path, ps[0]))
    ensures var c := RedactValue(secret, Children(t)[ps[0]], ChildPath(t, path, ps[0]));
            (At(c, ps[1..]).Some? <==> At(t, ps).Some?) &&
            (At(t, ps).Some? ==> RedactedTo(Covered(secret, t, path, ps), At(t, ps).value, At(c, ps[1..]).value))
    decreases |ps|, 0
  {
    var c, cp, qs := Children(t)[ps[0]], ChildPath(t, path, ps[0]), ps[1..];
    var star := c.Mapping? && secret(cp + ".*");
    RedactAt(secret, c, cp, star, qs);
    if At(t, ps).Some? && |ps| > 1 {
      if star && |qs| == 1 {
        WildFirst(t, path, ps);
        assert At(t, ps[..1]) == Some(c) by { assert ps[..1][1..] == []; }
      } else {
        CoveredBelow(secret, t, path, ps);
      }
    }
  }

  /** Redaction is complete and minimal: at every position it hides the literal when the position
      is covered, and otherwise leaves the node as it was. */
  lemma {:induction false} RedactionExact(secret: SecretPaths, t: Tree, ps: seq<nat>)
    ensures At(Redact(secret, t, ""), ps).Some? <==> At(t, ps).Some?
    ensures At(t, ps).Some? ==>
      RedactedTo(Covered(secret, t, "", ps), At(t, ps).value, At(Redact(secret, t, ""), ps).value)
  {
    RedactAt(secret, t, "", false, ps);
  }

  lemma {:induction false} MaskAllTwice(t: Tree)
    ensures MaskAll(MaskAll(t)) == MaskAll(t)
  {
    match t
    case Scalar(_, _, _) =>
    case Mapping(es, _) =>
      forall i | 0 <= i < |es| ensures MaskAll(MaskAll(es[i].value)) == MaskAll(es[i].value) {
        MaskAllTwice(es[i].value);
      }
      assert MaskAll(MaskAll(t)).entries == MaskAll(t).entries;
    case Sequence(items, _) =>
      forall i | 0 <= i < |items| ensures MaskAll(MaskAll(items[i])) == MaskAll(items[i]) {
        MaskAllTwice(items[i]);
      }
      assert MaskAll(MaskAll(t)).items == MaskAll(t).items;
  }

  /** Redacting a redacted tree changes nothing. */
  lemma {:induction false} RedactTwice(secret: SecretPaths, t: Tree, path: string, star: bool)
    ensures var r := Redact(secret, t, path, star); Redact(secret, r, path, star) == r
    decreases t, 0
  {
    var r := Redact(secret, t, path, star);
    match t
    case Scalar(_, _, _) =>
    case Mapping(es, _) =>
      forall i | 0 <= i < |es| ensures Redact(secret, r, path, star).entries[i] == r.entries[i] {
        RedactValueTwice(secret, es[i].value, Join(path, es[i].key));
      }
      assert Redact(secret, r, path, star).entries == r.entries;
    case Sequence(items, _) =>
      forall i | 0 <= i < |items| ensures Redact(secret, r, path, star).items[i] == r.items[i] {
        RedactValueTwice(secret, items[i], Items(path));
      }
      assert Redact(secret, r, path, star).items == r.items;
  }

  lemma {:induction false} RedactValueTwice(secret: SecretPaths, t: Tree, path: string)
    ensures var r := RedactValue(secret, t, path); RedactValue(secret, r, path) == r
    ensures RedactValue(secret, t, path).Scalar? <==> t.Scalar?
    decreases t, 1
  {
    MaskAllTwice(t);
    RedactTwice(secret, t, path, t.Mapping? && secret(path + ".*"));
  }
}
