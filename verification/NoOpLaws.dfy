/** An edit whose change list is empty changed nothing, so discarding it loses nothing. */
module NoOpLaws {
  import opened Wrappers
  import opened Trees
  import opened Schema
  import opened Redaction
  import opened Identity
  import opened Merging
  import opened MergeLaws
  import opened Restoring
  import opened Diffing
  import opened DiffLaws
  import opened Masking
  import opened EditLaws

  /** A hidden scalar whose masked form did not change did not change. */
  lemma {:induction false} UnmaskScalar(secret: SecretPaths, b: Tree, c: Tree, f: Option<Field>, wild: string,
                                        inside: bool)
    requires c.Scalar? && b.Scalar? && RestoreWalk(secret, Some(b), c, f, wild).Ok?
    requires SubmitError(secret, c, wild, inside).None? && (inside || secret(wild))
    requires Abs(Mask(b)) == Abs(Mask(RestoreWalk(secret, Some(b), c, f, wild).value))
    ensures Abs(b) == Abs(RestoreWalk(secret, Some(b), c, f, wild).value)
  {
  }

  /** Two mappings whose masked forms mean the same have the same keys, and equal masked values. */
  lemma {:induction false} MaskedUnder(es: seq<Entry>, rs: seq<Entry>, ms: seq<Entry>, ns: seq<Entry>, p: string,
                                       q: string)
    requires |es| == |ms| && forall i | 0 <= i < |es| :: es[i].key == ms[i].key
    requires |rs| == |ns| && forall i | 0 <= i < |rs| :: rs[i].key == ns[i].key
    requires Abs(Mapping(ms, p)) == Abs(Mapping(ns, q))
    ensures Keys(es) == Keys(rs) == Keys(ms) == Keys(ns)
    ensures forall k | k in Keys(es) ::
              IndexOf(ms, k) == IndexOf(es, k) && IndexOf(ns, k) == IndexOf(rs, k) &&
                Abs(Under(ms, k)) == Abs(Under(ns, k))
  {
    DictsEqual(ms, ns, p, q);
    MasksKeys(es, ms);
    MasksKeys(rs, ns);
  }

  lemma {:induction false} RestoredKeys(secret: SecretPaths, b: Tree, c: Tree, f: Option<Field>, wild: string)
    requires c.Mapping? && RestoreWalk(secret, Some(b), c, f, wild).Ok?
    ensures RestoreWalk(secret, Some(b), c, f, wild).value.Mapping?
    ensures Keys(RestoreWalk(secret, Some(b), c, f, wild).value.entries) == Keys(c.entries)
  {
    var r := RestoreWalk(secret, Some(b), c, f, wild).value;
    assert forall i | 0 <= i < |c.entries| :: r.entries[i].key == c.entries[i].key;
    MasksKeys(c.entries, r.entries);
  }

  lemma {:induction false} SubmitUnder(secret: SecretPaths, c: Tree, wild: string, inside: bool)
    requires c.Mapping? && SubmitError(secret, c, wild, inside).None?
    ensures forall k | k in Keys(c.entries) ::
              SubmitError(secret, Under(c.entries, k), Join(wild, k), inside || ContainerSecret(secret, wild)).None?
  {
    SubmitBelow(secret, c, wild, inside);
    forall k | k in Keys(c.entries)
      ensures SubmitError(secret, Under(c.entries, k), Join(wild, k), inside || ContainerSecret(secret, wild)).None?
    {
      assert Children(c)[IndexOf(c.entries, k)] == Under(c.entries, k);
    }
  }

  lemma {:induction false} UnmaskAll(secret: SecretPaths, b: Tree, c: Tree, f: Option<Field>, wild: string)
    requires KeysDistinct(b) && KeysDistinct(c) && NoKeysAt(f) && SubmitError(secret, c, wild, true).None?
    requires RestoreWalk(secret, Some(b), c, f, wild).Ok?
    requires Abs(MaskAll(b)) == Abs(MaskAll(RestoreWalk(secret, Some(b), c, f, wild).value))
    ensures Abs(b) == Abs(RestoreWalk(secret, Some(b), c, f, wild).value)
    decreases c, 1
  {
    match c
    case Scalar(_, _, _) => UnmaskScalar(secret, b, c, f, wild, true);
    case Mapping(_, _) => UnmaskAllMapping(secret, b, c, f, wild);
    case Sequence(cs, _) =>
      var r := RestoreWalk(secret, Some(b), c, f, wild).value;
      ListsEqual(MaskAll(b).items, MaskAll(r).items, b.note, r.note);
      NoKeysBelow(f, "");
      SubmitBelow(secret, c, wild, true);
      forall i | 0 <= i < |cs| ensures Abs(b.items[i]) == Abs(r.items[i]) {
        RestoreChild(secret, Some(b), c, f, wild, i);
        assert Children(c)[i] == cs[i] && Match(Some(b), c, f, wild, i) == Some(b.items[i]);
        assert MaskAll(b).items[i] == MaskAll(b.items[i]) && MaskAll(r).items[i] == MaskAll(r.items[i]);
        UnmaskAll(secret, b.items[i], cs[i], ItemSchema(f), Items(wild));
      }
      ListsEqual(b.items, r.items, b.note, r.note);
  }

  lemma {:induction false} UnmaskAllMapping(secret: SecretPaths, b: Tree, c: Tree, f: Option<Field>, wild: string)
    requires c.Mapping?
    requires KeysDistinct(b) && KeysDistinct(c) && NoKeysAt(f) && SubmitError(secret, c, wild, true).None?
    requires RestoreWalk(secret, Some(b), c, f, wild).Ok?
    requires Abs(MaskAll(b)) == Abs(MaskAll(RestoreWalk(secret, Some(b), c, f, wild).value))
    ensures Abs(b) == Abs(RestoreWalk(secret, Some(b), c, f, wild).value)
    decreases c, 0
  {
    var r := RestoreWalk(secret, Some(b), c, f, wild).value;
    RestoredKeys(secret, b, c, f, wild);
    MaskedUnder(b.entries, r.entries, MaskAll(b).entries, MaskAll(r).entries, b.note, r.note);
    WalkValueUnder(secret, b, c, f, wild);
    SubmitUnder(secret, c, wild, true);
    forall k | k in Keys(c.entries) ensures Abs(Under(b.entries, k)) == Abs(Under(r.entries, k)) {
      NoKeysBelow(f, k);
      UnmaskAll(secret, Under(b.entries, k), Under(c.entries, k), ChildSchema(f, k), Join(wild, k));
    }
    DictsEqual(b.entries, r.entries, b.note, r.note);
  }

  // ---- Identities survive the restoring walk ----

  /** A node whose path is not secret keeps its text. */
  lemma {:induction false} TextSame(secret: SecretPaths, cur: Option<Tree>, t: Tree, f: Option<Field>, path: string,
                                    inside: bool)
    requires RestoreWalk(secret, cur, t, f, path).Ok? && SubmitError(secret, t, path, inside).None? && !secret(path)
    ensures NodeText(RestoreWalk(secret, cur, t, f, path).value) == NodeText(t)
  {
  }

  /** The same for the fields of an item. */
  lemma {:induction false} FieldRestored(secret: SecretPaths, cur: Option<Tree>, item: Tree, f: Option<Field>,
                                         path: string, k: string, inside: bool)
    requires RestoreWalk(secret, cur, item, f, path).Ok? && SubmitError(secret, item, path, inside).None?
    requires !secret(Join(path, k))
    ensures var r := RestoreWalk(secret, cur, item, f, path).value;
            (r.Mapping? <==> item.Mapping?) && (Child(r, k).Some? <==> Child(item, k).Some?) &&
            (Child(item, k).Some? ==> NodeText(Child(r, k).value) == NodeText(Child(item, k).value))
  {
    if item.Mapping? {
      var es, rs := item.entries, RestoreWalk(secret, cur, item, f, path).value.entries;
      assert forall i | 0 <= i < |es| :: rs[i].key == es[i].key;
      MasksKeys(es, rs);
      if k in Keys(es) {
        var i := IndexOf(es, k);
        SubmitUnder(secret, item, path, inside);
        RestoreChild(secret, cur, item, f, path, i);
        assert Children(item)[i] == es[i].value;
        TextSame(secret, Match(cur, item, f, path, i), es[i].value, ChildSchema(f, k), Join(path, k),
                 inside || ContainerSecret(secret, path));
      }
    }
  }

  lemma {:induction false} TextRestored(secret: SecretPaths, cur: Option<Tree>, item: Tree, f: Option<Field>,
                                        path: string, keys: seq<string>, inside: bool)
    requires RestoreWalk(secret, cur, item, f, path).Ok? && SubmitError(secret, item, path, inside).None?
    requires forall k | k in keys :: !secret(Join(path, k))
    ensures IdentityText(RestoreWalk(secret, cur, item, f, path).value, keys) == IdentityText(item, keys)
  {
    if keys != [] {
      FieldRestored(secret, cur, item, f, path, keys[0], inside);
      TextRestored(secret, cur, item, f, path, keys[1..], inside);
    }
  }

  lemma {:induction false} SelectorRestored(secret: SecretPaths, cur: Option<Tree>, item: Tree, f: Field,
                                            wild: string, inside: bool)
    requires Clear(secret, f, wild) && f.identity != []
    requires RestoreWalk(secret, cur, item, f.item, Items(wild)).Ok? &&
             SubmitError(secret, item, Items(wild), inside).None?
    ensures var r := RestoreWalk(secret, cur, item, f.item, Items(wild)).value;
            Selector(r, f.identity, wild) == Selector(item, f.identity, wild)
  {
    var p := Items(wild);
    assert forall k | k in f.identity :: k in f.identity + ["match", "status"];
    assert "match" in f.identity + ["match", "status"] && "status" in f.identity + ["match", "status"];
    TextRestored(secret, cur, item, f.item, p, f.identity, inside);
    FieldRestored(secret, cur, item, f.item, p, "match", inside);
    FieldRestored(secret, cur, item, f.item, p, "status", inside);
  }

  lemma {:induction false} RestoredIdents(secret: SecretPaths, cur: Option<Tree>, c: Tree, f: Option<Field>,
                                          wild: string, inside: bool)
    requires c.Sequence? && ClearAt(secret, f, wild) && IdentityKeys(f) != []
    requires RestoreWalk(secret, cur, c, f, wild).Ok? && SubmitError(secret, c, wild, inside).None?
    ensures var r := RestoreWalk(secret, cur, c, f, wild).value;
            r.Sequence? && Idents(r.items, IdentityKeys(f), wild) == Idents(c.items, IdentityKeys(f), wild)
  {
    var r := RestoreWalk(secret, cur, c, f, wild).value;
    SubmitBelow(secret, c, wild, inside);
    forall i | 0 <= i < |c.items|
      ensures Selector(r.items[i], IdentityKeys(f), wild) == Selector(c.items[i], IdentityKeys(f), wild)
    {
      RestoreChild(secret, cur, c, f, wild, i);
      assert Children(c)[i] == c.items[i];
      if Walked(c, f, wild, i) {
        SelectorRestored(secret, Match(cur, c, f, wild, i), c.items[i], f.value, wild,
                         inside || ContainerSecret(secret, wild));
      }
    }
    IdentsSame(r.items, c.items, IdentityKeys(f), wild);
  }

  // ---- The walk itself ----

  /** No wildcard path `p.*` is secret (none is in TokenRoute's schema). */
  ghost predicate NoSecretWildcards(secret: SecretPaths) {
    forall p: string :: !secret(p + ".*")
  }

  /** The side conditions the induction carries. */
  ghost predicate Unmaskable(secret: SecretPaths, b: Tree, c: Tree, f: Option<Field>, wild: string) {
    KeysDistinct(b) && KeysDistinct(c) && Keyed(b, f, wild) && ClearAt(secret, f, wild) &&
    SubmitError(secret, c, wild, false).None? && RestoreWalk(secret, Some(b), c, f, wild).Ok? &&
    NoSecretWildcards(secret)
  }

  lemma {:induction false} UnmaskValue(secret: SecretPaths, b: Tree, c: Tree, f: Option<Field>, wild: string)
    requires Unmaskable(secret, b, c, f, wild)
    requires Abs(RedactValue(secret, b, wild)) ==
             Abs(RedactValue(secret, RestoreWalk(secret, Some(b), c, f, wild).value, wild))
    ensures Abs(b) == Abs(RestoreWalk(secret, Some(b), c, f, wild).value)
    decreases c, 2
  {
    var r := RestoreWalk(secret, Some(b), c, f, wild).value;
    RedactValueMasks(secret, b, wild);
    RedactValueMasks(secret, r, wild);
    if c.Scalar? {
      if secret(wild) {
        UnmaskScalar(secret, b, c, f, wild, false);
      }
    } else if ContainerSecret(secret, wild) {
      ClearBelow(secret, f, wild, "");
      SubmitInside(secret, c, wild);
      UnmaskAll(secret, b, c, f, wild);
    } else {
      UnmaskNode(secret, b, c, f, wild);
    }
  }

  /** At a secret container the check is as strict as inside one. */
  lemma {:induction false} SubmitInside(secret: SecretPaths, c: Tree, wild: string)
    requires !c.Scalar? && ContainerSecret(secret, wild)
    ensures SubmitError(secret, c, wild, false) == SubmitError(secret, c, wild, true)
  {
  }

  lemma {:induction false} UnmaskNode(secret: SecretPaths, b: Tree, c: Tree, f: Option<Field>, wild: string)
    requires Unmaskable(secret, b, c, f, wild) && !ContainerSecret(secret, wild)
    requires Abs(Redact(secret, b, wild)) == Abs(Redact(secret, RestoreWalk(secret, Some(b), c, f, wild).value, wild))
    ensures Abs(b) == Abs(RestoreWalk(secret, Some(b), c, f, wild).value)
    decreases c, 1
  {
    match c
    case Scalar(_, _, _) =>
    case Mapping(_, _) => UnmaskMapping(secret, b, c, f, wild);
    case Sequence(_, _) => UnmaskSequence(secret, b, c, f, wild);
  }

  lemma {:induction false} UnmaskMapping(secret: SecretPaths, b: Tree, c: Tree, f: Option<Field>, wild: string)
    requires c.Mapping? && Unmaskable(secret, b, c, f, wild) && !ContainerSecret(secret, wild)
    requires Abs(Redact(secret, b, wild)) == Abs(Redact(secret, RestoreWalk(secret, Some(b), c, f, wild).value, wild))
    ensures Abs(b) == Abs(RestoreWalk(secret, Some(b), c, f, wild).value)
    decreases c, 0
  {
    var r := RestoreWalk(secret, Some(b), c, f, wild).value;
    RestoredKeys(secret, b, c, f, wild);
    MaskedUnder(b.entries, r.entries, Redact(secret, b, wild).entries, Redact(secret, r, wild).entries, b.note, r.note);
    WalkValueUnder(secret, b, c, f, wild);
    SubmitUnder(secret, c, wild, false);
    forall k | k in Keys(c.entries) ensures Abs(Under(b.entries, k)) == Abs(Under(r.entries, k)) {
      ClearBelow(secret, f, wild, k);
      UnmaskValue(secret, Under(b.entries, k), Under(c.entries, k), ChildSchema(f, k), Join(wild, k));
    }
    DictsEqual(b.entries, r.entries, b.note, r.note);
  }

  lemma {:induction false} UnmaskSequence(secret: SecretPaths, b: Tree, c: Tree, f: Option<Field>, wild: string)
    requires c.Sequence? && Unmaskable(secret, b, c, f, wild) && !ContainerSecret(secret, wild)
    requires Abs(Redact(secret, b, wild)) == Abs(Redact(secret, RestoreWalk(secret, Some(b), c, f, wild).value, wild))
    ensures Abs(b) == Abs(RestoreWalk(secret, Some(b), c, f, wild).value)
    decreases c, 0
  {
    var r := RestoreWalk(secret, Some(b), c, f, wild).value;
    ListsEqual(Redact(secret, b, wild).items, Redact(secret, r, wild).items, b.note, r.note);
    ClearBelow(secret, f, wild, "");
    SubmitBelow(secret, c, wild, false);
    forall i | 0 <= i < |c.items| ensures Abs(b.items[i]) == Abs(r.items[i]) {
      UnmaskMatch(secret, b, c, f, wild, i);
      RestoreChild(secret, Some(b), c, f, wild, i);
      assert Children(c)[i] == c.items[i];
      assert Redact(secret, b, wild).items[i] == RedactValue(secret, b.items[i], Items(wild));
      assert Redact(secret, r, wild).items[i] == RedactValue(secret, r.items[i], Items(wild));
      UnmaskValue(secret, b.items[i], c.items[i], ItemSchema(f), Items(wild));
    }
    ListsEqual(b.items, r.items, b.note, r.note);
  }

  /** When the redacted lists mean the same, items were restored from their own position. */
  lemma {:induction false} UnmaskMatch(secret: SecretPaths, b: Tree, c: Tree, f: Option<Field>, wild: string, i: nat)
    requires c.Sequence? && b.Sequence? && Unmaskable(secret, b, c, f, wild)
    requires Abs(Redact(secret, b, wild)) == Abs(Redact(secret, RestoreWalk(secret, Some(b), c, f, wild).value, wild))
    requires i < |c.items|
    ensures |b.items| == |c.items| && Walked(c, f, wild, i) && Match(Some(b), c, f, wild, i) == Some(b.items[i])
  {
    var r := RestoreWalk(secret, Some(b), c, f, wild).value;
    var m, n := Redact(secret, b, wild), Redact(secret, r, wild);
    ListsEqual(m.items, n.items, b.note, r.note);
    if IdentityKeys(f) != [] {
      var ids := Idents(b.items, IdentityKeys(f), wild);
      RedactSameIdents(secret, b, f, wild, false);
      RedactSameIdents(secret, r, f, wild, false);
      IdentsAbs(m.items, n.items, IdentityKeys(f), wild);
      RestoredIdents(secret, Some(b), c, f, wild, false);
      assert Idents(c.items, IdentityKeys(f), wild) == ids;
      assert ids[i].Some?;
      FindUnique(ids, i);
    }
  }

  // ---- Redacted trees meet the conditions of the diff ----

  lemma {:induction false} MasksPlain(b: Tree, m: Tree, f: Option<Field>)
    requires Masks(b, m) && Plain(b, f)
    ensures Plain(m, f)
  {
    match b
    case Scalar(_, _, _) =>
    case Mapping(es, _) =>
      forall i | 0 <= i < |es| ensures Plain(m.entries[i].value, ChildSchema(f, es[i].key)) {
        MasksPlain(es[i].value, m.entries[i].value, ChildSchema(f, es[i].key));
      }
    case Sequence(xs, _) =>
      forall i | 0 <= i < |xs|
        ensures (IdentityKeys(f) == [] ==> m.items[i].Scalar?) && Plain(m.items[i], ItemSchema(f))
      {
        MasksPlain(xs[i], m.items[i], ItemSchema(f));
      }
  }

  lemma {:induction false} MasksTagged(b: Tree, m: Tree, tagOf: string -> string)
    requires Masks(b, m) && Tagged(b, tagOf) && tagOf(KEEP) == "!!str"
    ensures Tagged(m, tagOf)
  {
    match b
    case Scalar(_, _, _) =>
    case Mapping(es, _) =>
      forall i | 0 <= i < |es| ensures Tagged(m.entries[i].value, tagOf) {
        MasksTagged(es[i].value, m.entries[i].value, tagOf);
      }
    case Sequence(xs, _) =>
      forall i | 0 <= i < |xs| ensures Tagged(m.items[i], tagOf) {
        MasksTagged(xs[i], m.items[i], tagOf);
      }
  }

  /** What reaches the restoring walk when the edit is accepted. */
  lemma {:induction false} Accepted(secret: SecretPaths, f: Option<Field>, base: Tree, edit: Edit) returns (c: Tree)
    requires KeysDistinct(base) && KeysDistinct(edit.doc) && Candidate(secret, f, base, edit).Ok?
    ensures KeysDistinct(c) && SubmitError(secret, c, "", false).None?
    ensures RestoreWalk(secret, Some(base), c, f, "") == Ok(Candidate(secret, f, base, edit).value)
    ensures KeysDistinct(Candidate(secret, f, base, edit).value)
  {
    if edit.Structured? {
      MergeExact(base, edit.doc, f, "");
      c := Merge(base, edit.doc, f, "").value;
    } else {
      c := edit.doc;
    }
    RestoredDistinct(secret, Some(base), c, f, "");
  }

  /** Equal redacted documents come from equal documents: an accepted edit cannot change a hidden
      literal unseen. */
  lemma {:induction false} RedactedDecides(secret: SecretPaths, f: Option<Field>, base: Tree, edit: Edit)
    requires GoodBase(secret, f, base) && NoSecretWildcards(secret) && KeysDistinct(edit.doc)
    requires Candidate(secret, f, base, edit).Ok?
    ensures var cand := Candidate(secret, f, base, edit).value;
            Abs(cand) == Abs(base) <==> Abs(Redact(secret, base, "")) == Abs(Redact(secret, cand, ""))
  {
    var cand := Candidate(secret, f, base, edit).value;
    var c := Accepted(secret, f, base, edit);
    if Abs(cand) == Abs(base) {
      RedactAbs(secret, base, cand, "", false);
    }
    if Abs(Redact(secret, base, "")) == Abs(Redact(secret, cand, "")) {
      UnmaskNode(secret, base, c, f, "");
    }
  }

  /** For every accepted edit: the candidate means the base exactly when the change list is empty and
      the redacted documents do not differ in a blind spot. An edit whose bytes are discarded for its
      empty change list is therefore lost exactly when it sits in a blind spot. */
  lemma {:induction false} UnchangedExactly(secret: SecretPaths, f: Option<Field>, base: Tree, edit: Edit)
    requires GoodBase(secret, f, base) && NoSecretWildcards(secret) && KeysDistinct(edit.doc)
    requires Candidate(secret, f, base, edit).Ok?
    ensures var cand := Candidate(secret, f, base, edit).value;
            Abs(cand) == Abs(base) <==>
            Changes(secret, f, base, cand) == [] && !Blind(Redact(secret, base, ""), Redact(secret, cand, ""), f, "")
  {
    var cand := Candidate(secret, f, base, edit).value;
    var m, n := Redact(secret, base, ""), Redact(secret, cand, "");
    var c := Accepted(secret, f, base, edit);
    RedactedDecides(secret, f, base, edit);
    RedactedBase(secret, f, base);
    RedactMasks(secret, cand, "", false);
    MasksDistinct(cand, n);
    DiffMissesExactly(m, n, f);
  }

  /** With text-determined tags, flat unkeyed lists and items that can be told apart there is no
      blind spot, so an empty change list loses nothing. */
  lemma {:induction false} EmptyChangesSafe(secret: SecretPaths, f: Option<Field>, base: Tree, edit: Edit,
                                            tagOf: string -> string)
    requires GoodBase(secret, f, base) && NoSecretWildcards(secret) && KeysDistinct(edit.doc)
    requires Candidate(secret, f, base, edit).Ok?
    requires var cand := Candidate(secret, f, base, edit).value;
             Keyed(cand, f, "") && Tagged(cand, tagOf) && Changes(secret, f, base, cand) == []
    requires Plain(base, f) && Tagged(base, tagOf) && tagOf(KEEP) == "!!str"
    ensures Abs(Candidate(secret, f, base, edit).value) == Abs(base)
  {
    var cand := Candidate(secret, f, base, edit).value;
    NotBlind(secret, f, base, cand, tagOf);
    UnchangedExactly(secret, f, base, edit);
  }

  lemma {:induction false} NotBlind(secret: SecretPaths, f: Option<Field>, base: Tree, cand: Tree,
                                    tagOf: string -> string)
    requires GoodBase(secret, f, base) && Keyed(cand, f, "")
    requires Plain(base, f) && Tagged(base, tagOf) && Tagged(cand, tagOf) && tagOf(KEEP) == "!!str"
    ensures !Blind(Redact(secret, base, ""), Redact(secret, cand, ""), f, "")
  {
    var m, n := Redact(secret, base, ""), Redact(secret, cand, "");
    RedactedBase(secret, f, base);
    MasksPlain(base, m, f);
    MasksTagged(base, m, tagOf);
    RedactMasks(secret, cand, "", false);
    RedactSameIdents(secret, cand, f, "", false);
    MasksKeyed(cand, n, f, "");
    MasksTagged(cand, n, tagOf);
    NothingBlind(m, n, f, "", tagOf);
  }
}
