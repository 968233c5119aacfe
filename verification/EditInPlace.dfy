/** An edit of a configuration whose nodes are objects: the candidate is built on copies. */
module EditInPlace {
  import opened Wrappers
  import opened Trees
  import opened Schema
  import opened Redaction
  import opened Identity
  import opened Merging
  import opened MergeLaws
  import opened Restoring
  import opened EditLaws
  import opened NodeHeap
  import opened RedactInPlace
  import opened RestoreInPlace
  import opened MergeInPlace

  /** The candidate part of `validateAgainst`: copy, merge, check, restore. The base's objects are
      not changed, and the copy ends as the candidate tree or the edit is refused with its code. */
  method BuildCandidate(base: Node, secret: SecretPaths, f: Option<Field>, edit: Edit)
    returns (cand: Node, err: Option<Code>)
    requires base.Valid()
    ensures cand.Valid() && fresh(cand.repr) && cand in cand.repr
    ensures var r := Candidate(secret, f, base.value, edit);
            if err.None? then r == Ok(cand.value) else r == Err(err.value)
  {
    var before := Snapshot(base);
    if edit.Structured? {
      cand := Clone(before);
      var ok := MergeNode(cand, edit.doc, f, "");
      if !ok {
        OnlyConflict(before, edit.doc, f, "");
        return cand, Some(MergeConflict);
      }
    } else {
      cand := Clone(edit.doc);
      if !edit.doc.Mapping? {
        return cand, Some(RootNotMapping);
      }
    }
    var submitted := Snapshot(cand);
    err := SubmitError(secret, submitted, "", false);
    if err.None? {
      err := RestoreSecrets(cand, secret, before, f);
    }
  }

  /** Identity conflicts are the only way a merge fails. */
  lemma {:induction false} OnlyConflict(b: Tree, d: Tree, f: Option<Field>, path: string)
    ensures var r := Merge(b, d, f, path); r.Err? ==> r.error == MergeConflict
    decreases d, 1
  {
    if b.Mapping? && d.Mapping? {
      OnlyConflictMapping(b, d, f, path);
    } else if b.Sequence? && d.Sequence? && IdentityKeys(f) != [] {
      OnlyConflictList(b, d, f, path);
    }
  }

  lemma {:induction false} OnlyConflictMapping(b: Tree, d: Tree, f: Option<Field>, path: string)
    requires b.Mapping? && d.Mapping?
    ensures var r := Merge(b, d, f, path); r.Err? ==> r.error == MergeConflict
    decreases d, 0
  {
    if Merge(b, d, f, path).Err? {
      var kept := Surviving(b.entries, Keys(d.entries));
      var i := FailingEntry(b, d, f, path);
      var k := kept[i].key;
      OnlyConflict(kept[i].value, d.entries[LastIndexOf(d.entries, k)].value, ChildSchema(f, k), Join(path, k));
    }
  }

  /** A failing merge of mappings has the error of one of its entries. */
  lemma {:induction false} FailingEntry(b: Tree, d: Tree, f: Option<Field>, path: string) returns (i: nat)
    requires b.Mapping? && d.Mapping? && Merge(b, d, f, path).Err?
    ensures var kept := Surviving(b.entries, Keys(d.entries));
            i < |kept| && kept[i].key in Keys(d.entries)
            && MergedEntry(kept, d.entries, f, path, i) == Err(Merge(b, d, f, path).error)
  {
    MappingIs(b, d, f, path);
    i := FirstFailing(b.entries, d.entries, f, path);
  }

  lemma {:induction false} FirstFailing(es: seq<Entry>, ds: seq<Entry>, f: Option<Field>, path: string) returns (i: nat)
    requires MergedEntries(es, ds, f, path).Err?
    ensures var kept := Surviving(es, Keys(ds));
            i < |kept| && kept[i].key in Keys(ds)
            && MergedEntry(kept, ds, f, path, i) == Err(MergedEntries(es, ds, f, path).error)
  {
    var kept := Surviving(es, Keys(ds));
    SurvivingAllIn(es, ds);
    var rs := seq(|kept|, i requires 0 <= i < |kept| =>
      assert kept[i] in kept;
      var k := kept[i].key;
      WithValue(kept[i], Merge(kept[i].value, ds[LastIndexOf(ds, k)].value, ChildSchema(f, k), Join(path, k))));
    i := ErrorAt(rs, MergedEntries(es, ds, f, path).error);
  }

  lemma {:induction false} ErrorAt<T>(rs: seq<Result<T, Code>>, c: Code) returns (i: nat)
    requires Collect(rs) == Err(c)
    ensures i < |rs| && rs[i] == Err(c)
  {
    i :| 0 <= i < |rs| && rs[i].Err? && Collect(rs).error == rs[i].error;
  }

  lemma {:induction false} MappingIs(b: Tree, d: Tree, f: Option<Field>, path: string)
    requires b.Mapping? && d.Mapping?
    ensures var r, m := Merge(b, d, f, path), MergedEntries(b.entries, d.entries, f, path);
            if r.Err? then m == Err(r.error) else m.Ok?
  {
  }

  lemma {:induction false} OnlyConflictList(b: Tree, d: Tree, f: Option<Field>, path: string)
    requires b.Sequence? && d.Sequence? && IdentityKeys(f) != []
    ensures var r := Merge(b, d, f, path); r.Err? ==> r.error == MergeConflict
    decreases d, 0
  {
    var bids, dids := Idents(b.items, IdentityKeys(f), path), Idents(d.items, IdentityKeys(f), path);
    if Matchable(bids, dids) {
      SequenceIs(b, d, f, path);
      var rs := MergedItems(b.items, d.items, bids, dids, f, path);
      if Collect(rs).Err? {
        var i := ErrorAt(rs, Collect(rs).error);
        assert rs[i] == MergedItem(b.items, d.items, bids, dids, f, path, i);
        var j := Find(bids, dids[i].value).value;
        OnlyConflict(b.items[j], d.items[i], ItemSchema(f), Items(path));
      }
    }
  }

  /** A redacted copy, as snapshots and change lists use it. The original is not changed. */
  method RedactedCopy(n: Node, secret: SecretPaths) returns (copy: Node)
    requires n.Valid()
    ensures copy.Valid() && fresh(copy.repr) && copy.value == Redact(secret, n.value, "")
  {
    var t := Snapshot(n);
    copy := Clone(t);
    RedactNode(copy, secret, "");
  }
}
