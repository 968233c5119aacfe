/** The edit pipeline end to end: saving what was read changes nothing, and an edit that the diff
    calls empty changed nothing. */
module EditLaws {
  import opened Wrappers
  import opened Trees
  import opened Schema
  import opened Redaction
  import opened Identity
  import opened Merging
  import opened MergeLaws
  import opened Restoring
  import opened Diffing
  import opened Masking

  /** A parsed edit: a document to merge, or a whole replacement. */
  datatype Edit = Structured(doc: Tree) | Raw(doc: Tree)

  /** `validateAgainst` up to the restored candidate tree. */
  function Candidate(secret: SecretPaths, f: Option<Field>, base: Tree, edit: Edit): Result<Tree, Code> {
    var merged :=
      match edit
      case Structured(doc) => Merge(base, doc, f, "")
      case Raw(doc) => if doc.Mapping? then Ok(doc) else Err(RootNotMapping);
    if merged.Err? then merged
    else
      var bad := SubmitError(secret, merged.value, "", false);
      if bad.Some? then Err(bad.value) else Restore(secret, base, merged.value, f)
  }

  /** The change list: the diff of the redacted trees. */
  function Changes(secret: SecretPaths, f: Option<Field>, base: Tree, cand: Tree): seq<Change> {
    SemanticDiff(Redact(secret, base, ""), Redact(secret, cand, ""), f)
  }

  // ---- Saving what was read ----

  /** Every hidden scalar sits at a path that is itself secret (not merely inside a secret container
      or under a secret wildcard). */
  ghost predicate KeepsOnSecretPaths(secret: SecretPaths, m: Tree, wild: string) {
    match m
    case Scalar(_, text, _) => text == KEEP ==> secret(wild)
    case Mapping(es, _) => forall i | 0 <= i < |es| :: KeepsOnSecretPaths(secret, es[i].value, Join(wild, es[i].key))
    case Sequence(items, _) => forall i | 0 <= i < |items| :: KeepsOnSecretPaths(secret, items[i], Items(wild))
  }

  /** The same, said of positions. */
  lemma {:induction false} KeepsByPosition(secret: SecretPaths, m: Tree, wild: string)
    ensures KeepsOnSecretPaths(secret, m, wild) <==> forall ps | IsKeep(m, ps) :: secret(WildAt(m, wild, ps))
  {
    if KeepsOnSecretPaths(secret, m, wild) {
      forall ps | IsKeep(m, ps) ensures secret(WildAt(m, wild, ps)) {
        if ps != [] {
          var c, cp := Children(m)[ps[0]], ChildPath(m, wild, ps[0]);
          KeepsByPosition(secret, c, cp);
          assert IsKeep(c, ps[1..]);
        }
      }
    }
    if forall ps | IsKeep(m, ps) :: secret(WildAt(m, wild, ps)) {
      forall i | 0 <= i < |Children(m)| ensures KeepsOnSecretPaths(secret, Children(m)[i], ChildPath(m, wild, i)) {
        var c, cp := Children(m)[i], ChildPath(m, wild, i);
        KeepsByPosition(secret, c, cp);
        forall qs | IsKeep(c, qs) ensures secret(WildAt(c, cp, qs)) {
          assert ([i] + qs)[1..] == qs;
          assert IsKeep(m, [i] + qs);
          assert WildAt(m, wild, [i] + qs) == WildAt(c, cp, qs);
        }
      }
      if m.Scalar? && m.text == KEEP {
        assert IsKeep(m, []);
        assert secret(WildAt(m, wild, []));
      }
      KeepsFromChildren(secret, m, wild);
    }
  }

  lemma {:induction false} KeepsFromChildren(secret: SecretPaths, m: Tree, wild: string)
    requires m.Scalar? && m.text == KEEP ==> secret(wild)
    requires forall i | 0 <= i < |Children(m)| :: KeepsOnSecretPaths(secret, Children(m)[i], ChildPath(m, wild, i))
    ensures KeepsOnSecretPaths(secret, m, wild)
  {
    match m
    case Scalar(_, _, _) =>
    case Mapping(es, _) =>
      forall i | 0 <= i < |es| ensures KeepsOnSecretPaths(secret, es[i].value, Join(wild, es[i].key)) {
        assert Children(m)[i] == es[i].value;
      }
    case Sequence(items, _) =>
      forall i | 0 <= i < |items| ensures KeepsOnSecretPaths(secret, items[i], Items(wild)) {
        assert Children(m)[i] == items[i];
      }
  }

  /** Restoring a document that means the masked base: accepted exactly when every hidden scalar is
      at a secret path, and the result means the base. */
  lemma {:induction false} RestoreMasked(secret: SecretPaths, b: Tree, m: Tree, c: Tree, f: Option<Field>, wild: string)
    requires Masks(b, m) && SameIdents(b, m, f, wild) && Keyed(b, f, wild) && !HasSentinel(b)
    requires KeysDistinct(b) && KeysDistinct(c) && Abs(c) == Abs(m)
    ensures var r := RestoreWalk(secret, Some(b), c, f, wild);
            (r.Ok? <==> KeepsOnSecretPaths(secret, m, wild)) && (r.Ok? ==> Abs(r.value) == Abs(b))
    decreases b, 1
  {
    match b
    case Scalar(_, _, _) =>
    case Mapping(_, _) => RestoreMaskedMapping(secret, b, m, c, f, wild);
    case Sequence(_, _) => RestoreMaskedSequence(secret, b, m, c, f, wild);
  }

  lemma {:induction false} RestoreMaskedMapping(secret: SecretPaths, b: Tree, m: Tree, c: Tree, f: Option<Field>,
                                                wild: string)
    requires b.Mapping?
    requires Masks(b, m) && SameIdents(b, m, f, wild) && Keyed(b, f, wild) && !HasSentinel(b)
    requires KeysDistinct(b) && KeysDistinct(c) && Abs(c) == Abs(m)
    ensures var r := RestoreWalk(secret, Some(b), c, f, wild);
            (r.Ok? <==> KeepsOnSecretPaths(secret, m, wild)) && (r.Ok? ==> Abs(r.value) == Abs(b))
    decreases b, 0
  {
    var es, ms, cs := b.entries, m.entries, c.entries;
    MasksKeys(es, ms);
    DictsEqual(cs, ms, c.note, m.note);
    forall k | k in Keys(es)
      ensures var r := RestoreWalk(secret, Some(Under(es, k)), Under(cs, k), ChildSchema(f, k), Join(wild, k));
              (r.Ok? <==> KeepsOnSecretPaths(secret, Under(ms, k), Join(wild, k))) &&
                (r.Ok? ==> Abs(r.value) == Abs(Under(es, k)))
    {
      var i := IndexOf(es, k);
      assert !HasSentinel(es[i].value);
      RestoreMasked(secret, es[i].value, ms[i].value, Under(cs, k), ChildSchema(f, k), Join(wild, k));
    }
    WalkOkUnder(secret, b, c, f, wild);
    assert forall k | k in Keys(es) ::
      WalkedOk(secret, b, c, f, wild, k) <==> KeepsOnSecretPaths(secret, Under(ms, k), Join(wild, k));
    MasksDistinct(b, m);
    KeepsUnder(secret, m, wild);
    if RestoreWalk(secret, Some(b), c, f, wild).Ok? {
      WalkValueUnder(secret, b, c, f, wild);
      DictsEqual(RestoreWalk(secret, Some(b), c, f, wild).value.entries, es, c.note, b.note);
    }
  }

  lemma {:induction false} ChildUnder(b: Tree, c: Tree, f: Option<Field>, wild: string, i: nat)
    requires b.Mapping? && c.Mapping? && Distinct(c.entries) && Keys(b.entries) == Keys(c.entries) && i < |c.entries|
    ensures var k := c.entries[i].key;
            k in Keys(c.entries) && IndexOf(c.entries, k) == i && Children(c)[i] == Under(c.entries, k) &&
            Walked(c, f, wild, i) && Match(Some(b), c, f, wild, i) == Some(Under(b.entries, k))
  {
    FieldAt(c.entries, i);
  }

  ghost predicate WalkedOk(secret: SecretPaths, b: Tree, c: Tree, f: Option<Field>, wild: string, k: string)
    requires b.Mapping? && c.Mapping? && k in Keys(b.entries) && k in Keys(c.entries)
  {
    RestoreWalk(secret, Some(Under(b.entries, k)), Under(c.entries, k), ChildSchema(f, k), Join(wild, k)).Ok?
  }

  /** The walk on a mapping succeeds when it does under every key. */
  lemma {:induction false} WalkOkUnder(secret: SecretPaths, b: Tree, c: Tree, f: Option<Field>, wild: string)
    requires b.Mapping? && c.Mapping? && Distinct(c.entries) && Keys(b.entries) == Keys(c.entries)
    ensures RestoreWalk(secret, Some(b), c, f, wild).Ok? <==>
            forall k | k in Keys(c.entries) :: WalkedOk(secret, b, c, f, wild, k)
  {
    RestoreOkBelow(secret, Some(b), c, f, wild);
    forall i | 0 <= i < |c.entries|
      ensures c.entries[i].key in Keys(c.entries) && Walked(c, f, wild, i)
      ensures WalkedOk(secret, b, c, f, wild, c.entries[i].key) <==>
              RestoreWalk(secret, Match(Some(b), c, f, wild, i), Children(c)[i], BelowSchema(c, f, i),
                ChildPath(c, wild, i)).Ok?
    {
      ChildUnder(b, c, f, wild, i);
    }
    forall k | k in Keys(c.entries) ensures c.entries[IndexOf(c.entries, k)].key == k {}
  }

  lemma {:induction false} WalkValueUnder(secret: SecretPaths, b: Tree, c: Tree, f: Option<Field>, wild: string)
    requires b.Mapping? && c.Mapping? && Distinct(c.entries) && Keys(b.entries) == Keys(c.entries)
    requires RestoreWalk(secret, Some(b), c, f, wild).Ok?
    ensures var r := RestoreWalk(secret, Some(b), c, f, wild).value;
            r.Mapping? && Keys(r.entries) == Keys(c.entries) &&
            forall k | k in Keys(c.entries) ::
              RestoreWalk(secret, Some(Under(b.entries, k)), Under(c.entries, k), ChildSchema(f, k), Join(wild, k)) ==
              Ok(Under(r.entries, k))
  {
    var r := RestoreWalk(secret, Some(b), c, f, wild).value;
    WalkKeepsKeys(secret, Some(b), c, f, wild);
    MasksKeys(c.entries, r.entries);
    forall k | k in Keys(c.entries)
      ensures RestoreWalk(secret, Some(Under(b.entries, k)), Under(c.entries, k), ChildSchema(f, k), Join(wild, k)) ==
              Ok(Under(r.entries, k))
    {
      WalkedUnder(secret, b, c, f, wild, k);
    }
  }

  lemma {:induction false} WalkedUnder(secret: SecretPaths, b: Tree, c: Tree, f: Option<Field>, wild: string, k: string)
    requires b.Mapping? && c.Mapping? && Distinct(c.entries) && Keys(b.entries) == Keys(c.entries) &&
             k in Keys(c.entries)
    requires RestoreWalk(secret, Some(b), c, f, wild).Ok?
    ensures var r := RestoreWalk(secret, Some(b), c, f, wild).value;
            r.Mapping? && k in Keys(r.entries) &&
            RestoreWalk(secret, Some(Under(b.entries, k)), Under(c.entries, k), ChildSchema(f, k), Join(wild, k)) ==
            Ok(Under(r.entries, k))
  {
    var r := RestoreWalk(secret, Some(b), c, f, wild).value;
    WalkKeepsKeys(secret, Some(b), c, f, wild);
    MasksKeys(c.entries, r.entries);
    var i := IndexOf(c.entries, k);
    ChildUnder(b, c, f, wild, i);
    RestoreChild(secret, Some(b), c, f, wild, i);
  }

  lemma {:induction false} WalkKeepsKeys(secret: SecretPaths, cur: Option<Tree>, c: Tree, f: Option<Field>,
                                         wild: string)
    requires c.Mapping? && RestoreWalk(secret, cur, c, f, wild).Ok?
    ensures var r := RestoreWalk(secret, cur, c, f, wild).value;
            r.Mapping? && |r.entries| == |c.entries| && forall i | 0 <= i < |c.entries| ::
              r.entries[i].key == c.entries[i].key
  {
  }

  lemma {:induction false} KeepsUnder(secret: SecretPaths, m: Tree, wild: string)
    requires m.Mapping? && Distinct(m.entries)
    ensures KeepsOnSecretPaths(secret, m, wild) <==>
            forall k | k in Keys(m.entries) :: KeepsOnSecretPaths(secret, Under(m.entries, k), Join(wild, k))
  {
    var ms := m.entries;
    forall i | 0 <= i < |ms| ensures ms[i].key in Keys(ms) && ms[i].value == Under(ms, ms[i].key) {
      FieldAt(ms, i);
    }
  }

  lemma {:induction false} RestoreMaskedSequence(secret: SecretPaths, b: Tree, m: Tree, c: Tree, f: Option<Field>,
                                                 wild: string)
    requires b.Sequence?
    requires Masks(b, m) && SameIdents(b, m, f, wild) && Keyed(b, f, wild) && !HasSentinel(b)
    requires KeysDistinct(b) && KeysDistinct(c) && Abs(c) == Abs(m)
    ensures var r := RestoreWalk(secret, Some(b), c, f, wild);
            (r.Ok? <==> KeepsOnSecretPaths(secret, m, wild)) && (r.Ok? ==> Abs(r.value) == Abs(b))
    decreases b, 0
  {
    var xs, ms, cs := b.items, m.items, c.items;
    ListsEqual(cs, ms, c.note, m.note);
    RestoreOkBelow(secret, Some(b), c, f, wild);
    forall i | 0 <= i < |cs|
      ensures Walked(c, f, wild, i) && Match(Some(b), c, f, wild, i) == Some(xs[i])
      ensures var r := RestoreWalk(secret, Some(xs[i]), cs[i], ItemSchema(f), Items(wild));
              (r.Ok? <==> KeepsOnSecretPaths(secret, ms[i], Items(wild))) && (r.Ok? ==> Abs(r.value) == Abs(xs[i]))
    {
      MatchSame(xs, c, f, wild, i, b.note, ms);
      assert !HasSentinel(xs[i]);
      RestoreMasked(secret, xs[i], ms[i], cs[i], ItemSchema(f), Items(wild));
    }
    var r := RestoreWalk(secret, Some(b), c, f, wild);
    if r.Ok? {
      forall i | 0 <= i < |cs| ensures Abs(r.value.items[i]) == Abs(xs[i]) {
        RestoreChild(secret, Some(b), c, f, wild, i);
      }
      ListsEqual(r.value.items, xs, c.note, b.note);
    }
  }

  /** In a list with the same identities, the `i`-th item is matched with the `i`-th. */
  lemma {:induction false} MatchSame(xs: seq<Tree>, c: Tree, f: Option<Field>, wild: string, i: nat, note: string,
                                     ms: seq<Tree>)
    requires c.Sequence? && |c.items| == |ms| == |xs| && i < |xs|
    requires Keyed(Sequence(xs, note), f, wild)
    requires forall j | 0 <= j < |ms| :: Abs(c.items[j]) == Abs(ms[j])
    requires IdentityKeys(f) != [] ==> Idents(xs, IdentityKeys(f), wild) == Idents(ms, IdentityKeys(f), wild)
    ensures Walked(c, f, wild, i) && Match(Some(Sequence(xs, note)), c, f, wild, i) == Some(xs[i])
  {
    if IdentityKeys(f) != [] {
      var ids := Idents(xs, IdentityKeys(f), wild);
      IdentsAbs(c.items, ms, IdentityKeys(f), wild);
      assert Idents(c.items, IdentityKeys(f), wild)[i] == ids[i];
      assert ids[i].Some?;
      FindUnique(ids, i);
    }
  }

  // ---- The submitted-secrets check on a redacted document ----

  lemma {:induction false} SubmitBelow(secret: SecretPaths, t: Tree, wild: string, inside: bool)
    requires !t.Scalar?
    ensures SubmitError(secret, t, wild, inside).None? <==>
            forall i | 0 <= i < |Children(t)| ::
              SubmitError(secret, Children(t)[i], ChildPath(t, wild, i), inside || ContainerSecret(secret, wild)).None?
  {
    var below := inside || secret(wild) || secret(Items(wild));
    match t
    case Mapping(es, _) =>
      var rs := seq(|es|, i requires 0 <= i < |es| => SubmitError(secret, es[i].value, Join(wild, es[i].key), below));
      assert SubmitError(secret, t, wild, inside) == FirstError(rs);
      assert forall i | 0 <= i < |es| :: rs[i] == SubmitError(secret, Children(t)[i], ChildPath(t, wild, i), below);
    case Sequence(items, _) =>
      var rs := seq(|items|, i requires 0 <= i < |items| => SubmitError(secret, items[i], Items(wild), below));
      assert SubmitError(secret, t, wild, inside) == FirstError(rs);
      assert forall i | 0 <= i < |items| :: rs[i] == SubmitError(secret, Children(t)[i], ChildPath(t, wild, i), below);
  }

  /** Whether the check passes depends on the value of the document only. */
  lemma {:induction false} SubmitAbs(secret: SecretPaths, a: Tree, b: Tree, wild: string, inside: bool)
    requires Abs(a) == Abs(b) && KeysDistinct(a) && KeysDistinct(b) && SubmitError(secret, a, wild, inside).None?
    ensures SubmitError(secret, b, wild, inside).None?
    decreases b
  {
    match b
    case Scalar(_, _, _) =>
    case Mapping(fs, m) =>
      var es := a.entries;
      DictsEqual(es, fs, a.note, m);
      SubmitBelow(secret, a, wild, inside);
      forall i | 0 <= i < |fs|
        ensures SubmitError(secret, Children(b)[i], ChildPath(b, wild, i),
                            inside || ContainerSecret(secret, wild)).None?
      {
        FieldAt(fs, i);
        var j := IndexOf(es, fs[i].key);
        assert Children(a)[j] == es[j].value;
        SubmitAbs(secret, es[j].value, fs[i].value, Join(wild, fs[i].key), inside || ContainerSecret(secret, wild));
      }
      SubmitBelow(secret, b, wild, inside);
    case Sequence(ys, m) =>
      ListsEqual(a.items, ys, a.note, m);
      SubmitBelow(secret, a, wild, inside);
      forall i | 0 <= i < |ys|
        ensures SubmitError(secret, Children(b)[i], ChildPath(b, wild, i),
                            inside || ContainerSecret(secret, wild)).None?
      {
        assert Children(a)[i] == a.items[i];
        SubmitAbs(secret, a.items[i], ys[i], Items(wild), inside || ContainerSecret(secret, wild));
      }
      SubmitBelow(secret, b, wild, inside);
  }

  lemma {:induction false} SubmitMaskAll(secret: SecretPaths, t: Tree, wild: string, inside: bool)
    ensures SubmitError(secret, MaskAll(t), wild, inside).None? <==> KeepsOnSecretPaths(secret, MaskAll(t), wild)
  {
    var m := MaskAll(t);
    if !t.Scalar? {
      SubmitBelow(secret, m, wild, inside);
      match t
      case Mapping(es, _) =>
        forall i | 0 <= i < |es|
          ensures SubmitError(secret, Children(m)[i], ChildPath(m, wild, i),
                              inside || ContainerSecret(secret, wild)).None? <==>
                  KeepsOnSecretPaths(secret, m.entries[i].value, Join(wild, m.entries[i].key))
        {
          SubmitMaskAll(secret, es[i].value, Join(wild, es[i].key), inside || ContainerSecret(secret, wild));
        }
      case Sequence(items, _) =>
        forall i | 0 <= i < |items|
          ensures SubmitError(secret, Children(m)[i], ChildPath(m, wild, i),
                              inside || ContainerSecret(secret, wild)).None? <==>
                  KeepsOnSecretPaths(secret, m.items[i], Items(wild))
        {
          SubmitMaskAll(secret, items[i], Items(wild), inside || ContainerSecret(secret, wild));
        }
    }
  }

  lemma {:induction false} SubmitRedact(secret: SecretPaths, t: Tree, wild: string, star: bool)
    requires !ContainerSecret(secret, wild)
    ensures var m := Redact(secret, t, wild, star);
            SubmitError(secret, m, wild, false).None? <==> KeepsOnSecretPaths(secret, m, wild)
    decreases t, 0
  {
    var m := Redact(secret, t, wild, star);
    if !t.Scalar? {
      SubmitBelow(secret, m, wild, false);
      match t
      case Mapping(es, _) =>
        forall i | 0 <= i < |es|
          ensures SubmitError(secret, Children(m)[i], ChildPath(m, wild, i), false).None? <==>
                  KeepsOnSecretPaths(secret, m.entries[i].value, Join(wild, m.entries[i].key))
        {
          SubmitRedactValue(secret, es[i].value, Join(wild, es[i].key));
        }
      case Sequence(items, _) =>
        forall i | 0 <= i < |items|
          ensures SubmitError(secret, Children(m)[i], ChildPath(m, wild, i), false).None? <==>
                  KeepsOnSecretPaths(secret, m.items[i], Items(wild))
        {
          SubmitRedactValue(secret, items[i], Items(wild));
        }
    }
  }

  lemma {:induction false} SubmitRedactValue(secret: SecretPaths, t: Tree, wild: string)
    ensures var m := RedactValue(secret, t, wild);
            SubmitError(secret, m, wild, false).None? <==> KeepsOnSecretPaths(secret, m, wild)
    decreases t, 1
  {
    if !t.Scalar? {
      if ContainerSecret(secret, wild) {
        SubmitMaskAll(secret, t, wild, false);
      } else {
        SubmitRedact(secret, t, wild, t.Mapping? && secret(wild + ".*"));
      }
    }
  }

  // ---- The merge accepts a redacted document ----

  lemma {:induction false} MergeSucceeds(b: Tree, d: Tree, f: Option<Field>, path: string)
    requires Keyed(b, f, path) && Keyed(d, f, path) && KeysDistinct(b) && KeysDistinct(d)
    ensures Merge(b, d, f, path).Ok?
    decreases d
  {
    match (b, d)
    case (Mapping(es, _), Mapping(ds, _)) =>
      var kept := Surviving(es, Keys(ds));
      forall i | 0 <= i < |kept|
        ensures kept[i].key in Keys(ds) &&
                Merge(kept[i].value, ds[LastIndexOf(ds, kept[i].key)].value, ChildSchema(f, kept[i].key),
                  Join(path, kept[i].key)).Ok?
      {
        assert kept[i] in kept;
        var k := kept[i].key;
        MergeSucceeds(kept[i].value, ds[LastIndexOf(ds, k)].value, ChildSchema(f, k), Join(path, k));
      }
      assert MergedEntries(es, ds, f, path).Ok?;
    case (Sequence(items, _), Sequence(ds, _)) =>
      var keys := IdentityKeys(f);
      if keys != [] {
        var bids, dids := Idents(items, keys, path), Idents(ds, keys, path);
        forall i | 0 <= i < |ds| && Find(bids, dids[i].value).Some?
          ensures Merge(items[Find(bids, dids[i].value).value], ds[i], ItemSchema(f), Items(path)).Ok?
        {
          MergeSucceeds(items[Find(bids, dids[i].value).value], ds[i], ItemSchema(f), Items(path));
        }
      }
    case _ =>
  }

  lemma {:induction false} MaskedTagsAgree(b: Tree, m: Tree, d: Tree, f: Option<Field>, path: string)
    requires Masks(b, m) && SameIdents(b, m, f, path) && Keyed(b, f, path) && !HasSentinel(b) && Abs(d) == Abs(m)
    ensures TagsAgree(b, d, f, path)
    decreases b
  {
    match b
    case Scalar(_, _, _) =>
    case Mapping(es, _) =>
      var ms, ds := m.entries, d.entries;
      MasksKeys(es, ms);
      DictsEqual(ds, ms, d.note, m.note);
      forall k | k in Keys(es) && k in Keys(ds)
        ensures TagsAgree(Under(es, k), ds[IndexOf(ds, k)].value, ChildSchema(f, k), Join(path, k))
      {
        var i := IndexOf(es, k);
        assert !HasSentinel(es[i].value);
        MaskedTagsAgree(es[i].value, ms[i].value, Under(ds, k), ChildSchema(f, k), Join(path, k));
      }
    case Sequence(xs, _) =>
      var ms, ds := m.items, d.items;
      ListsEqual(ds, ms, d.note, m.note);
      if IdentityKeys(f) != [] {
        var bids := Idents(xs, IdentityKeys(f), path);
        IdentsAbs(ds, ms, IdentityKeys(f), path);
        forall i | 0 <= i < |ds|
          ensures bids[i].Some? && Find(bids, bids[i].value) == Some(i) &&
                  TagsAgree(xs[i], ds[i], ItemSchema(f), Items(path))
        {
          FindUnique(bids, i);
          assert !HasSentinel(xs[i]);
          MaskedTagsAgree(xs[i], ms[i], ds[i], ItemSchema(f), Items(path));
        }
      }
  }

  // ---- Redaction respects values ----

  lemma {:induction false} MaskAllAbs(a: Tree, b: Tree)
    requires Abs(a) == Abs(b) && KeysDistinct(a) && KeysDistinct(b)
    ensures Abs(MaskAll(a)) == Abs(MaskAll(b))
  {
    match a
    case Scalar(_, _, _) =>
    case Mapping(es, n) =>
      var fs, ms, ns := b.entries, MaskAll(a).entries, MaskAll(b).entries;
      DictsEqual(es, fs, n, b.note);
      MasksKeys(es, ms);
      MasksKeys(fs, ns);
      forall k | k in Keys(es) ensures Abs(Under(ms, k)) == Abs(Under(ns, k)) {
        MaskAllAbs(Under(es, k), Under(fs, k));
      }
      DictsEqual(ms, ns, n, b.note);
    case Sequence(xs, n) =>
      ListsEqual(xs, b.items, n, b.note);
      forall i | 0 <= i < |xs| ensures Abs(MaskAll(xs[i])) == Abs(MaskAll(b.items[i])) {
        MaskAllAbs(xs[i], b.items[i]);
      }
      ListsEqual(MaskAll(a).items, MaskAll(b).items, n, b.note);
  }

  lemma {:induction false} RedactAbs(secret: SecretPaths, a: Tree, b: Tree, path: string, star: bool)
    requires Abs(a) == Abs(b) && KeysDistinct(a) && KeysDistinct(b)
    ensures Abs(Redact(secret, a, path, star)) == Abs(Redact(secret, b, path, star))
    decreases a, 0
  {
    var m, n := Redact(secret, a, path, star), Redact(secret, b, path, star);
    match a
    case Scalar(_, _, _) =>
    case Mapping(es, _) =>
      var fs := b.entries;
      DictsEqual(es, fs, a.note, b.note);
      MasksKeys(es, m.entries);
      MasksKeys(fs, n.entries);
      forall k | k in Keys(es) ensures Abs(Under(m.entries, k)) == Abs(Under(n.entries, k)) {
        RedactValueAbs(secret, Under(es, k), Under(fs, k), Join(path, k));
      }
      DictsEqual(m.entries, n.entries, a.note, b.note);
    case Sequence(xs, _) =>
      ListsEqual(xs, b.items, a.note, b.note);
      forall i | 0 <= i < |xs| ensures Abs(m.items[i]) == Abs(n.items[i]) {
        RedactValueAbs(secret, xs[i], b.items[i], Items(path));
      }
      ListsEqual(m.items, n.items, a.note, b.note);
  }

  lemma {:induction false} RedactValueAbs(secret: SecretPaths, a: Tree, b: Tree, path: string)
    requires Abs(a) == Abs(b) && KeysDistinct(a) && KeysDistinct(b)
    ensures Abs(RedactValue(secret, a, path)) == Abs(RedactValue(secret, b, path))
    decreases a, 1
  {
    if !a.Scalar? {
      if ContainerSecret(secret, path) {
        MaskAllAbs(a, b);
      } else {
        RedactAbs(secret, a, b, path, a.Mapping? && secret(path + ".*"));
      }
    }
  }

  // ---- The two end-to-end results ----

  /** What the program relies on in the file: distinct keys, identified list items, no sentinel
      text; and in the schema: identity fields and the root are not secret. */
  ghost predicate GoodBase(secret: SecretPaths, f: Option<Field>, base: Tree) {
    base.Mapping? && KeysDistinct(base) && Keyed(base, f, "") && !HasSentinel(base) &&
    ClearAt(secret, f, "") && !ContainerSecret(secret, "")
  }

  lemma {:induction false} RedactedBase(secret: SecretPaths, f: Option<Field>, base: Tree)
    requires GoodBase(secret, f, base)
    ensures var m := Redact(secret, base, "");
            Masks(base, m) && SameIdents(base, m, f, "") && KeysDistinct(m) && Keyed(m, f, "")
  {
    RedactMasks(secret, base, "", false);
    RedactSameIdents(secret, base, f, "", false);
    MasksDistinct(base, Redact(secret, base, ""));
    MasksKeyed(base, Redact(secret, base, ""), f, "");
  }

  /** What reaches the secret checks when the submitted document means the redacted base. */
  lemma {:induction false} UnchangedReaches(secret: SecretPaths, f: Option<Field>, base: Tree, edit: Edit)
    requires GoodBase(secret, f, base) && KeysDistinct(edit.doc) && Abs(edit.doc) == Abs(Redact(secret, base, ""))
    ensures var merged := if edit.Structured? then Merge(base, edit.doc, f, "") else Ok(edit.doc);
            edit.doc.Mapping? && merged.Ok? && KeysDistinct(merged.value) &&
              Abs(merged.value) == Abs(Redact(secret, base, ""))
  {
    var m := Redact(secret, base, "");
    RedactedBase(secret, f, base);
    if edit.Structured? {
      KeyedAbs(m, edit.doc, f, "");
      MergeSucceeds(base, edit.doc, f, "");
      MaskedTagsAgree(base, m, edit.doc, f, "");
      MergeExact(base, edit.doc, f, "");
    }
  }

  /** The secret checks on a document that means the redacted base. */
  lemma {:induction false} UnchangedChecked(secret: SecretPaths, f: Option<Field>, base: Tree, c: Tree)
    requires GoodBase(secret, f, base) && KeysDistinct(c) && Abs(c) == Abs(Redact(secret, base, ""))
    ensures var keeps := KeepsOnSecretPaths(secret, Redact(secret, base, ""), "");
            (SubmitError(secret, c, "", false).None? <==> keeps) && (Restore(secret, base, c, f).Ok? <==> keeps)
    ensures var r := Restore(secret, base, c, f); r.Ok? ==> Abs(r.value) == Abs(base) && KeysDistinct(r.value)
  {
    var m := Redact(secret, base, "");
    RedactedBase(secret, f, base);
    SubmitRedact(secret, base, "", false);
    if SubmitError(secret, c, "", false).None? {
      SubmitAbs(secret, c, m, "", false);
    }
    if SubmitError(secret, m, "", false).None? {
      SubmitAbs(secret, m, c, "", false);
    }
    RestoreMasked(secret, base, m, c, f, "");
    var w := RestoreWalk(secret, Some(base), c, f, "");
    if w.Ok? {
      RestoredDistinct(secret, Some(base), c, f, "");
      SentinelAbs(w.value, base);
    }
  }

  lemma {:induction false} RestoredDistinct(secret: SecretPaths, cur: Option<Tree>, c: Tree, f: Option<Field>,
                                            wild: string)
    requires KeysDistinct(c) && RestoreWalk(secret, cur, c, f, wild).Ok?
    ensures KeysDistinct(RestoreWalk(secret, cur, c, f, wild).value)
    decreases c
  {
    var r := RestoreWalk(secret, cur, c, f, wild).value;
    match c
    case Scalar(_, _, _) =>
    case Mapping(es, _) =>
      forall i | 0 <= i < |es| ensures KeysDistinct(r.entries[i].value) && r.entries[i].key == es[i].key {
        RestoreChild(secret, cur, c, f, wild, i);
        RestoredDistinct(secret, Match(cur, c, f, wild, i), es[i].value, ChildSchema(f, es[i].key),
          Join(wild, es[i].key));
      }
    case Sequence(xs, _) =>
      forall i | 0 <= i < |xs| ensures KeysDistinct(r.items[i]) {
        RestoreChild(secret, cur, c, f, wild, i);
        if Walked(c, f, wild, i) {
          RestoredDistinct(secret, Match(cur, c, f, wild, i), xs[i], ItemSchema(f), Items(wild));
        }
      }
  }

  /** Round trip: submitting the redacted document, with its mapping keys in any order, is accepted
      exactly when every hidden scalar is itself at a secret path; then the candidate means the
      base and the change list is empty. */
  lemma {:induction false} RoundTrip(secret: SecretPaths, f: Option<Field>, base: Tree, edit: Edit)
    requires GoodBase(secret, f, base) && KeysDistinct(edit.doc) && Abs(edit.doc) == Abs(Redact(secret, base, ""))
    ensures var r := Candidate(secret, f, base, edit);
            (r.Ok? <==> KeepsOnSecretPaths(secret, Redact(secret, base, ""), "")) &&
            (r.Ok? ==> Abs(r.value) == Abs(base) && Changes(secret, f, base, r.value) == [])
  {
    UnchangedReaches(secret, f, base, edit);
    var c := if edit.Structured? then Merge(base, edit.doc, f, "").value else edit.doc;
    UnchangedChecked(secret, f, base, c);
    assert Candidate(secret, f, base, edit) ==
           (var bad := SubmitError(secret, c, "", false); if bad.Some? then Err(bad.value)
             else Restore(secret, base, c, f));
    if Candidate(secret, f, base, edit).Ok? {
      NoChange(secret, f, base, Restore(secret, base, c, f).value);
    }
  }

  /** A candidate that means the base has an empty change list. */
  lemma {:induction false} NoChange(secret: SecretPaths, f: Option<Field>, base: Tree, cand: Tree)
    requires GoodBase(secret, f, base) && KeysDistinct(cand) && Abs(cand) == Abs(base)
    ensures Changes(secret, f, base, cand) == []
  {
    var m, n := Redact(secret, base, ""), Redact(secret, cand, "");
    RedactedBase(secret, f, base);
    RedactAbs(secret, base, cand, "", false);
    RedactMasks(secret, cand, "", false);
    MasksDistinct(cand, n);
    KeyedAbs(m, n, f, "");
    EqualMeansNoDiff(m, n, f, "");
  }

  /** Sentinels are part of the value. */
  lemma {:induction false} SentinelAbs(a: Tree, b: Tree)
    requires Abs(a) == Abs(b) && !HasSentinel(b) && KeysDistinct(a)
    ensures !HasSentinel(a)
  {
    match a
    case Scalar(_, _, _) =>
    case Mapping(es, n) =>
      DictsEqual(es, b.entries, n, b.note);
      forall i | 0 <= i < |es| ensures !HasSentinel(es[i].value) {
        FieldAt(es, i);
        assert !HasSentinel(b.entries[IndexOf(b.entries, es[i].key)].value);
        SentinelAbs(es[i].value, b.entries[IndexOf(b.entries, es[i].key)].value);
      }
    case Sequence(xs, n) =>
      ListsEqual(xs, b.items, n, b.note);
      forall i | 0 <= i < |xs| ensures !HasSentinel(xs[i]) {
        assert !HasSentinel(b.items[i]);
        SentinelAbs(xs[i], b.items[i]);
      }
  }
}
