/** What an accepted edit leaves behind for the next one. */
module SavedAgain {
  import opened Wrappers
  import opened Trees
  import opened Schema
  import opened Redaction
  import opened Identity
  import opened Merging
  import opened MergeLaws
  import opened Restoring
  import opened Masking
  import opened EditLaws
  import opened NoOpLaws
  import opened ShippedSchema

  /** A good file but for its keyed lists. */
  ghost predicate SoundBase(secret: SecretPaths, f: Option<Field>, base: Tree) {
    base.Mapping? && KeysDistinct(base) && !HasSentinel(base) && ClearAt(secret, f, "") && !ContainerSecret(secret, "")
  }

  /** An accepted edit of a sound file leaves a sound file. So it leaves a good one exactly when all
      its list items can be told apart. */
  lemma {:induction false} AcceptedLeaves(secret: SecretPaths, f: Option<Field>, base: Tree, edit: Edit)
    requires SoundBase(secret, f, base) && edit.doc.Mapping? && KeysDistinct(edit.doc)
    requires Candidate(secret, f, base, edit).Ok?
    ensures var cand := Candidate(secret, f, base, edit).value;
            SoundBase(secret, f, cand) && (GoodBase(secret, f, cand) <==> Keyed(cand, f, ""))
  {
    var c := Accepted(secret, f, base, edit);
    AcceptedMapping(secret, f, base, edit);
    CandidateClean(secret, f, base, edit);
  }

  lemma {:induction false} AcceptedMapping(secret: SecretPaths, f: Option<Field>, base: Tree, edit: Edit)
    requires base.Mapping? && edit.doc.Mapping? && Candidate(secret, f, base, edit).Ok?
    ensures Candidate(secret, f, base, edit).value.Mapping?
  {
  }

  lemma {:induction false} CandidateClean(secret: SecretPaths, f: Option<Field>, base: Tree, edit: Edit)
    requires Candidate(secret, f, base, edit).Ok?
    ensures !HasSentinel(Candidate(secret, f, base, edit).value)
  {
  }

  // ---- Saving what was read from such a file ----

  /** Below a list without identity keys there is no list with them. */
  predicate FlatLists(f: Field) {
    (f.identity == [] && f.item.Some? ==> NoKeys(f.item.value)) &&
    (forall i | 0 <= i < |f.children| :: FlatLists(f.children[i])) && (f.item.Some? ==> FlatLists(f.item.value))
  }

  predicate FlatAt(f: Option<Field>) {
    f.Some? ==> FlatLists(f.value)
  }

  lemma {:induction false} FlatBelow(f: Option<Field>, key: string)
    requires FlatAt(f)
    ensures FlatAt(ChildSchema(f, key)) && FlatAt(ItemSchema(f)) && (IdentityKeys(f) == [] ==> NoKeysAt(ItemSchema(f)))
  {
    if f.Some? {
      FindChildIn(f.value.children, key);
    }
  }

  lemma {:induction false} NoKeysKeyed(t: Tree, f: Option<Field>, path: string)
    requires NoKeysAt(f)
    ensures Keyed(t, f, path)
  {
    match t
    case Scalar(_, _, _) =>
    case Mapping(es, _) =>
      forall i | 0 <= i < |es| ensures Keyed(es[i].value, ChildSchema(f, es[i].key), Join(path, es[i].key)) {
        NoKeysBelow(f, es[i].key);
        NoKeysKeyed(es[i].value, ChildSchema(f, es[i].key), Join(path, es[i].key));
      }
    case Sequence(xs, _) =>
      NoKeysBelow(f, "");
      forall i | 0 <= i < |xs| ensures Keyed(xs[i], ItemSchema(f), Items(path)) {
        NoKeysKeyed(xs[i], ItemSchema(f), Items(path));
      }
  }

  /** Merging what was read succeeds only when all list items of the base can be told apart. */
  lemma {:induction false} MergeNeedsKeyed(b: Tree, m: Tree, d: Tree, f: Option<Field>, path: string)
    requires Masks(b, m) && SameIdents(b, m, f, path) && Abs(d) == Abs(m) && FlatAt(f)
    requires KeysDistinct(b) && KeysDistinct(d) && Merge(b, d, f, path).Ok?
    ensures Keyed(b, f, path)
    decreases b, 1
  {
    match b
    case Scalar(_, _, _) =>
    case Mapping(_, _) => MappingNeedsKeyed(b, m, d, f, path);
    case Sequence(_, _) => SequenceNeedsKeyed(b, m, d, f, path);
  }

  lemma {:induction false} MappingNeedsKeyed(b: Tree, m: Tree, d: Tree, f: Option<Field>, path: string)
    requires b.Mapping? && Masks(b, m) && SameIdents(b, m, f, path) && Abs(d) == Abs(m) && FlatAt(f)
    requires KeysDistinct(b) && KeysDistinct(d) && Merge(b, d, f, path).Ok?
    ensures Keyed(b, f, path)
    decreases b, 0
  {
    var es, ms := b.entries, m.entries;
    MasksKeys(es, ms);
    DictsEqual(d.entries, ms, d.note, m.note);
    MergedMapping(b, d, f, path);
    forall i | 0 <= i < |es| ensures Keyed(es[i].value, ChildSchema(f, es[i].key), Join(path, es[i].key)) {
      var k := es[i].key;
      FieldAt(es, i);
      FlatBelow(f, k);
      assert Under(es, k) == es[i].value;
      assert Merge(Under(es, k), Under(d.entries, k), ChildSchema(f, k), Join(path, k)).Ok?;
      MergeNeedsKeyed(es[i].value, ms[i].value, Under(d.entries, k), ChildSchema(f, k), Join(path, k));
    }
  }

  lemma {:induction false} SequenceNeedsKeyed(b: Tree, m: Tree, d: Tree, f: Option<Field>, path: string)
    requires b.Sequence? && Masks(b, m) && SameIdents(b, m, f, path) && Abs(d) == Abs(m) && FlatAt(f)
    requires KeysDistinct(b) && KeysDistinct(d) && Merge(b, d, f, path).Ok?
    ensures Keyed(b, f, path)
    decreases b, 0
  {
    var xs, ms, ds, keys := b.items, m.items, d.items, IdentityKeys(f);
    ListsEqual(ds, ms, d.note, m.note);
    FlatBelow(f, "");
    if keys == [] {
      forall i | 0 <= i < |xs| ensures Keyed(xs[i], ItemSchema(f), Items(path)) {
        NoKeysKeyed(xs[i], ItemSchema(f), Items(path));
      }
    } else {
      MergedSequence(b, d, f, path);
      IdentsAbs(ds, ms, keys, path);
      var ids := Idents(xs, keys, path);
      assert Idents(ds, keys, path) == ids;
      forall i | 0 <= i < |xs| ensures Keyed(xs[i], ItemSchema(f), Items(path)) {
        assert ids[i].Some?;
        FindUnique(ids, i);
        MergeNeedsKeyed(xs[i], ms[i], ds[i], ItemSchema(f), Items(path));
      }
    }
  }

  // ---- Which step refuses ----

  /** A merge fails with a conflict only. */
  lemma {:induction false} MergeConflicts(b: Tree, d: Tree, f: Option<Field>, path: string)
    ensures Merge(b, d, f, path).Ok? || Merge(b, d, f, path) == Err(MergeConflict)
    decreases d
  {
    match (b, d)
    case (Mapping(es, _), Mapping(ds, _)) =>
      forall k | k in Keys(ds), t: Tree
        ensures var r := Merge(t, ds[LastIndexOf(ds, k)].value, ChildSchema(f, k), Join(path, k));
                r.Ok? || r == Err(MergeConflict)
      {
        MergeConflicts(t, ds[LastIndexOf(ds, k)].value, ChildSchema(f, k), Join(path, k));
      }
    case (Sequence(xs, _), Sequence(ds, _)) =>
      forall i, t: Tree | 0 <= i < |ds|
        ensures var r := Merge(t, ds[i], ItemSchema(f), Items(path)); r.Ok? || r == Err(MergeConflict)
      {
        MergeConflicts(t, ds[i], ItemSchema(f), Items(path));
      }
    case _ =>
  }

  /** The check of the submitted secrets never reports a conflict. */
  lemma {:induction false} SubmitNoConflict(secret: SecretPaths, t: Tree, wild: string, inside: bool)
    ensures SubmitError(secret, t, wild, inside) != Some(MergeConflict)
  {
    var below := inside || secret(wild) || secret(Items(wild));
    match t
    case Scalar(_, _, _) =>
    case Mapping(es, _) =>
      forall i | 0 <= i < |es|
        ensures SubmitError(secret, es[i].value, Join(wild, es[i].key), below) != Some(MergeConflict)
      {
        SubmitNoConflict(secret, es[i].value, Join(wild, es[i].key), below);
      }
      FirstErrorIn(seq(|es|, i requires 0 <= i < |es| =>
        SubmitError(secret, es[i].value, Join(wild, es[i].key), below)));
    case Sequence(xs, _) =>
      forall i | 0 <= i < |xs| ensures SubmitError(secret, xs[i], Items(wild), below) != Some(MergeConflict) {
        SubmitNoConflict(secret, xs[i], Items(wild), below);
      }
      FirstErrorIn(seq(|xs|, i requires 0 <= i < |xs| => SubmitError(secret, xs[i], Items(wild), below)));
  }

  lemma {:induction false} FirstErrorIn(rs: seq<Option<Code>>)
    ensures FirstError(rs).Some? ==> FirstError(rs) in rs
  {
    if rs != [] && rs[0].None? {
      FirstErrorIn(rs[1..]);
    }
  }

  /** Nor does the restoring walk. */
  lemma {:induction false} WalkNoConflict(secret: SecretPaths, cur: Option<Tree>, c: Tree, f: Option<Field>,
                                          wild: string)
    ensures RestoreWalk(secret, cur, c, f, wild) != Err(MergeConflict)
    decreases c
  {
    match c
    case Scalar(_, _, _) =>
    case Mapping(es, _) =>
      forall i | 0 <= i < |es|
        ensures RestoreWalk(secret, Match(cur, c, f, wild, i), es[i].value, ChildSchema(f, es[i].key),
                            Join(wild, es[i].key)) != Err(MergeConflict)
      {
        WalkNoConflict(secret, Match(cur, c, f, wild, i), es[i].value, ChildSchema(f, es[i].key),
          Join(wild, es[i].key));
      }
    case Sequence(xs, _) =>
      forall i | 0 <= i < |xs|
        ensures RestoreWalk(secret, Match(cur, c, f, wild, i), xs[i], ItemSchema(f), Items(wild)) != Err(MergeConflict)
      {
        WalkNoConflict(secret, Match(cur, c, f, wild, i), xs[i], ItemSchema(f), Items(wild));
      }
  }

  /** A structured edit is refused with a conflict exactly when the merge fails. */
  lemma {:induction false} ConflictIsMerge(secret: SecretPaths, f: Option<Field>, base: Tree, doc: Tree)
    ensures Candidate(secret, f, base, Structured(doc)) == Err(MergeConflict) <==> Merge(base, doc, f, "").Err?
  {
    MergeConflicts(base, doc, f, "");
    var merged := Merge(base, doc, f, "");
    if merged.Ok? {
      SubmitNoConflict(secret, merged.value, "", false);
      WalkNoConflict(secret, Some(base), merged.value, f, "");
    }
  }

  // ---- The next save ----

  lemma {:induction false} MergeIffKeyed(secret: SecretPaths, f: Option<Field>, base: Tree, doc: Tree)
    requires SoundBase(secret, f, base) && FlatAt(f)
    requires KeysDistinct(doc) && Abs(doc) == Abs(Redact(secret, base, ""))
    ensures Merge(base, doc, f, "").Ok? <==> Keyed(base, f, "")
  {
    RedactMasks(secret, base, "", false);
    RedactSameIdents(secret, base, f, "", false);
    if Keyed(base, f, "") {
      UnchangedReaches(secret, f, base, Structured(doc));
    } else if Merge(base, doc, f, "").Ok? {
      MergeNeedsKeyed(base, Redact(secret, base, ""), doc, f, "");
    }
  }

  /** A structured save of what was read from any sound file is accepted exactly when every hidden
      scalar is itself at a secret path and all list items can be told apart; otherwise a list that
      cannot be matched is reported as a conflict. */
  lemma {:induction false} StructuredSave(secret: SecretPaths, f: Option<Field>, base: Tree, doc: Tree)
    requires SoundBase(secret, f, base) && FlatAt(f)
    requires KeysDistinct(doc) && Abs(doc) == Abs(Redact(secret, base, ""))
    ensures var r := Candidate(secret, f, base, Structured(doc));
            (r.Ok? <==> KeepsOnSecretPaths(secret, Redact(secret, base, ""), "") && Keyed(base, f, "")) &&
            (r == Err(MergeConflict) <==> !Keyed(base, f, ""))
  {
    MergeIffKeyed(secret, f, base, doc);
    ConflictIsMerge(secret, f, base, doc);
    if Keyed(base, f, "") {
      RoundTrip(secret, f, base, Structured(doc));
    }
  }

  /** So one accepted edit can lock the form: after it, saving what is read is refused exactly when the
      edit left a list whose items cannot be told apart, or a literal hidden only by its container. */
  lemma {:induction false} NextSave(secret: SecretPaths, f: Option<Field>, base: Tree, edit: Edit, doc: Tree)
    requires SoundBase(secret, f, base) && FlatAt(f) && edit.doc.Mapping? && KeysDistinct(edit.doc)
    requires Candidate(secret, f, base, edit).Ok? && KeysDistinct(doc)
    requires Abs(doc) == Abs(Redact(secret, Candidate(secret, f, base, edit).value, ""))
    ensures var cand := Candidate(secret, f, base, edit).value;
            Candidate(secret, f, cand, Structured(doc)).Ok?
            <==> KeepsOnSecretPaths(secret, Redact(secret, cand, ""), "") && Keyed(cand, f, "")
  {
    AcceptedLeaves(secret, f, base, edit);
    StructuredSave(secret, f, Candidate(secret, f, base, edit).value, doc);
  }

  /** The gateway's own schema is like that. */
  lemma {:induction false} FormIsFlat()
    ensures FlatLists(Form())
  {
    LeafFlat();
    ListFlat("candidates", ["provider", "model"], [Leaf("provider"), Leaf("model")]);
    ListFlat("routes", ["model"], [Leaf("model"), Leaf("strategy"), Candidates()]);
    ListFlat("providers", ["name"], [Leaf("name"), Leaf("type"), Leaf("api_key"), Texts("api_keys")]);
    ListFlat("free_tier", ["provider", "model"], [Leaf("provider"), Leaf("model")]);
    ListFlat("failure_rules", ["match", "status"], [Leaf("match"), Leaf("status")]);
    ListFlat("search", ["backend"], [Leaf("backend"), Leaf("api_key"), Texts("api_keys")]);
    var cs := Form().children;
    forall i | 0 <= i < |cs| ensures FlatLists(cs[i]) {
      if i < 4 {
        assert cs[i] == Leaf(cs[i].name);
      }
    }
  }

  lemma {:induction false} LeafFlat()
    ensures forall name :: FlatLists(Leaf(name)) && FlatLists(Texts(name))
  {
  }

  lemma {:induction false} ListFlat(name: string, identity: seq<string>, children: seq<Field>)
    requires identity != [] && forall i | 0 <= i < |children| :: FlatLists(children[i])
    ensures FlatLists(ListOf(name, identity, children))
  {
  }
}
