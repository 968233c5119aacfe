/** When a save asks for a restart: exactly when a bootstrap field visibly changed. */
module RestartLaws {
  import opened Wrappers
  import opened Trees
  import opened Schema
  import opened Identity
  import opened Diffing

  lemma {:induction false} FlattenHolds(ss: seq<seq<Change>>)
    ensures forall ch :: ch in Flatten(ss) <==> exists i :: 0 <= i < |ss| && ch in ss[i]
  {
    if ss != [] {
      FlattenHolds(ss[1..]);
      forall ch ensures ch in Flatten(ss) <==> exists i :: 0 <= i < |ss| && ch in ss[i] {
        if i :| 0 <= i < |ss| && ch in ss[i] {
          assert i > 0 ==> ch in ss[1..][i - 1];
        }
        if ch in Flatten(ss[1..]) {
          var j :| 0 <= j < |ss[1..]| && ch in ss[1..][j];
          assert ch in ss[j + 1];
        }
      }
    }
  }

  /** `p` is `path` or continues it with a field or an item. */
  predicate Continues(p: string, path: string) {
    p == path || (|p| > |path| && p[..|path|] == path && p[|path|] in ['.', '['])
  }

  lemma {:induction false} ContinuesFurther(p: string, path: string, key: string)
    requires path != ""
    requires Continues(p, Join(path, key)) || Continues(p, Items(path))
    ensures Continues(p, path)
  {
    var q := if Continues(p, Join(path, key)) then Join(path, key) else Items(path);
    assert q[..|path|] == path && q[|path|] in ['.', '['];
    assert p[..|q|] == q;
    assert p[..|path|] == q[..|path|];
  }

  /** All changes of a walk below a named place are at or below it. */
  ghost predicate AllBelow(chs: seq<Change>, path: string) {
    forall ch | ch in chs :: Continues(ch.path, path)
  }

  lemma {:induction false} DiffBelow(b: Option<Tree>, a: Tree, f: Option<Field>, path: string)
    requires path != ""
    ensures AllBelow(Diff(b, a, f, path), path)
    decreases a, 1
  {
    if b.Some? && !NodesEqual(b.value, a) {
      if b.value.Mapping? && a.Mapping? {
        DiffBelowMapping(b.value, a, f, path);
      } else if b.value.Sequence? && a.Sequence? && IdentityKeys(f) != [] {
        DiffBelowList(b.value, a, f, path);
      }
    }
  }

  function RemovedKeys(b: Tree, a: Tree, path: string): seq<seq<Change>>
    requires b.Mapping? && a.Mapping?
  {
    seq(|b.entries|, i requires 0 <= i < |b.entries| =>
      if b.entries[i].key in Keys(a.entries) then [] else [Change(Join(path, b.entries[i].key), Remove)])
  }

  function WalkedKeys(b: Tree, a: Tree, f: Option<Field>, path: string): seq<seq<Change>>
    requires b.Mapping? && a.Mapping?
  {
    seq(|a.entries|, i requires 0 <= i < |a.entries| =>
      Diff(Child(b, a.entries[i].key), a.entries[i].value, ChildSchema(f, a.entries[i].key),
        Join(path, a.entries[i].key)))
  }

  lemma {:induction false} MappingDiff(b: Tree, a: Tree, f: Option<Field>, path: string)
    requires b.Mapping? && a.Mapping? && !NodesEqual(b, a)
    ensures Diff(Some(b), a, f, path) == Flatten(RemovedKeys(b, a, path)) + Flatten(WalkedKeys(b, a, f, path))
  {
    var es, fs := b.entries, a.entries;
    assert RemovedKeys(b, a, path) == seq(|es|, i requires 0 <= i < |es| =>
      if es[i].key in Keys(fs) then [] else [Change(Join(path, es[i].key), Remove)]);
    assert WalkedKeys(b, a, f, path) == seq(|fs|, i requires 0 <= i < |fs| =>
      Diff(Child(Some(b).value, fs[i].key), fs[i].value, ChildSchema(f, fs[i].key), Join(path, fs[i].key)));
  }

  lemma {:induction false} DiffBelowMapping(b: Tree, a: Tree, f: Option<Field>, path: string)
    requires path != "" && b.Mapping? && a.Mapping? && !NodesEqual(b, a)
    ensures AllBelow(Diff(Some(b), a, f, path), path)
    decreases a, 0
  {
    MappingDiff(b, a, f, path);
    var removed, walked := RemovedKeys(b, a, path), WalkedKeys(b, a, f, path);
    forall ch | ch in Flatten(removed) ensures Continues(ch.path, path) {
      var i := PartWith(removed, ch);
      ContinuesFurther(ch.path, path, b.entries[i].key);
    }
    forall ch | ch in Flatten(walked) ensures Continues(ch.path, path) {
      var i := PartWith(walked, ch);
      var k := a.entries[i].key;
      DiffBelow(Child(b, k), a.entries[i].value, ChildSchema(f, k), Join(path, k));
      ContinuesFurther(ch.path, path, k);
    }
  }

  lemma {:induction false} DiffBelowList(b: Tree, a: Tree, f: Option<Field>, path: string)
    requires path != "" && b.Sequence? && a.Sequence? && IdentityKeys(f) != [] && !NodesEqual(b, a)
    ensures AllBelow(Diff(Some(b), a, f, path), path)
    decreases a, 0
  {
    var xs, ys := b.items, a.items;
    var bids, aids := Idents(xs, IdentityKeys(f), path), Idents(ys, IdentityKeys(f), path);
    var walked := seq(|ys|, i requires 0 <= i < |ys| =>
      if aids[i].None? then []
      else if Find(bids, aids[i].value).None? then [Change(Items(path), Add)]
      else Diff(Some(xs[Find(bids, aids[i].value).value]), ys[i], ItemSchema(f), Items(path)));
    var removed := RemovedItems(bids, aids, path);
    assert Diff(Some(b), a, f, path) == Reordered(bids, aids, path) + Flatten(walked) + Flatten(removed);
    FlattenHolds(removed);
    FlattenHolds(walked);
    forall ch | ch in Flatten(walked) ensures Continues(ch.path, path) {
      var i :| 0 <= i < |walked| && ch in walked[i];
      if Find(bids, aids[i].value).Some? {
        DiffBelow(Some(xs[Find(bids, aids[i].value).value]), ys[i], ItemSchema(f), Items(path));
      }
      ContinuesFurther(ch.path, path, "");
    }
    forall ch | ch in Flatten(removed) ensures Continues(ch.path, path) {
      ContinuesFurther(ch.path, path, "");
    }
  }

  /** A top-level field name: not empty, and no path syntax in it. */
  predicate FieldName(key: string) {
    key != "" && '.' !in key && '[' !in key
  }

  /** The top-level field is a scalar or absent. */
  predicate ScalarAt(t: Tree, key: string) {
    Child(t, key).Some? ==> Child(t, key).value.Scalar?
  }

  /** A field was added, removed, or has another kind or text. */
  predicate FieldsDiffer(x: Option<Tree>, y: Option<Tree>) {
    x.Some? != y.Some? || (x.Some? && (!SameKind(x.value, y.value) || NodeText(x.value) != NodeText(y.value)))
  }

  predicate Differs(b: Tree, a: Tree, key: string) {
    FieldsDiffer(Child(b, key), Child(a, key))
  }

  predicate Reported(chs: seq<Change>, key: string) {
    exists ch | ch in chs :: ch.path == key
  }

  /** The walk of a submitted scalar. */
  lemma {:induction false} ScalarDiff(x: Option<Tree>, y: Tree, f: Option<Field>, key: string)
    requires y.Scalar?
    ensures var chs := Diff(x, y, f, key);
            if FieldsDiffer(x, Some(y)) then |chs| == 1 && chs[0].path == key else chs == []
  {
  }

  /** The document under top-level fields that all have names. */
  ghost predicate Named(t: Tree) {
    t.Mapping? && Distinct(t.entries) && "" !in Keys(t.entries)
  }

  lemma {:induction false} DiffersReported(b: Tree, a: Tree, f: Option<Field>, key: string)
    requires b.Mapping? && Distinct(b.entries) && Named(a) && FieldName(key) && ScalarAt(a, key) && Differs(b, a, key)
    ensures Reported(SemanticDiff(b, a, f), key)
  {
    if NodesEqual(b, a) {
      SameField(b, a, key);
      assert false;
    }
    MappingDiff(b, a, f, "");
    var removed, walked := RemovedKeys(b, a, ""), WalkedKeys(b, a, f, "");
    if key !in Keys(a.entries) {
      FlattenHolds(removed);
      var ch := Change(key, Remove);
      assert ch in removed[IndexOf(b.entries, key)];
      assert ch in SemanticDiff(b, a, f);
    } else {
      FlattenHolds(walked);
      var i := IndexOf(a.entries, key);
      ScalarDiff(Child(b, key), a.entries[i].value, ChildSchema(f, key), key);
      var ch := walked[i][0];
      assert ch in walked[i];
      assert ch in SemanticDiff(b, a, f) && ch.path == key;
    }
  }

  lemma {:induction false} SameName(key: string, k: string)
    requires FieldName(key) && k != ""
    ensures Continues(key, k) ==> k == key
  {
    assert forall i | 0 <= i < |key| :: key[i] in key;
  }

  lemma {:induction false} ReportedDiffers(b: Tree, a: Tree, f: Option<Field>, key: string, ch: Change)
    requires b.Mapping? && Distinct(b.entries) && Named(a) && FieldName(key) && ScalarAt(a, key)
    requires ch in SemanticDiff(b, a, f) && ch.path == key
    ensures Differs(b, a, key)
  {
    MappingDiff(b, a, f, "");
    var removed, walked := RemovedKeys(b, a, ""), WalkedKeys(b, a, f, "");
    if ch in Flatten(removed) {
      var i := PartWith(removed, ch);
      RemovedDiffers(b, a, key, ch, i);
    } else {
      var i := PartWith(walked, ch);
      WalkedDiffers(b, a, f, key, ch, i);
    }
  }

  lemma {:induction false} PartWith(ss: seq<seq<Change>>, ch: Change) returns (i: nat)
    requires ch in Flatten(ss)
    ensures i < |ss| && ch in ss[i]
  {
    FlattenHolds(ss);
    i :| 0 <= i < |ss| && ch in ss[i];
  }

  lemma {:induction false} RemovedDiffers(b: Tree, a: Tree, key: string, ch: Change, i: nat)
    requires b.Mapping? && a.Mapping? && i < |b.entries| && ch in RemovedKeys(b, a, "")[i] && ch.path == key
    ensures Differs(b, a, key)
  {
    assert Join("", b.entries[i].key) == b.entries[i].key;
    assert b.entries[i].key == key;
  }

  lemma {:induction false} WalkedDiffers(b: Tree, a: Tree, f: Option<Field>, key: string, ch: Change, i: nat)
    requires b.Mapping? && Distinct(b.entries) && Named(a) && FieldName(key) && ScalarAt(a, key) && i < |a.entries|
    requires ch.path == key &&
             ch in Diff(Child(b, a.entries[i].key), a.entries[i].value, ChildSchema(f, a.entries[i].key),
               a.entries[i].key)
    ensures Differs(b, a, key)
  {
    var k := a.entries[i].key;
    DiffBelow(Child(b, k), a.entries[i].value, ChildSchema(f, k), k);
    SameName(key, k);
    FieldAt(a.entries, i);
    ScalarDiff(Child(b, key), a.entries[i].value, ChildSchema(f, key), key);
  }

  /** A top-level field that is submitted as a scalar or not at all is reported exactly when it
      differs. */
  lemma {:induction false} FieldReported(b: Tree, a: Tree, f: Option<Field>, key: string)
    requires b.Mapping? && Distinct(b.entries) && Named(a) && FieldName(key) && ScalarAt(a, key)
    ensures Reported(SemanticDiff(b, a, f), key) <==> Differs(b, a, key)
  {
    if Differs(b, a, key) {
      DiffersReported(b, a, f, key);
    }
    if ch :| ch in SemanticDiff(b, a, f) && ch.path == key {
      ReportedDiffers(b, a, f, key, ch);
    }
  }

  lemma {:induction false} SameField(b: Tree, a: Tree, key: string)
    requires b.Mapping? && a.Mapping? && NodesEqual(b, a) && Distinct(b.entries) && Distinct(a.entries)
    ensures !Differs(b, a, key)
  {
    if key in Keys(b.entries) {
      var i := IndexOf(b.entries, key);
      assert a.entries[i].key == key;
      FieldAt(a.entries, i);
      assert NodesEqual(b.entries[i].value, a.entries[i].value);
    }
    if key in Keys(a.entries) {
      var i := IndexOf(a.entries, key);
      assert b.entries[i].key == key;
    }
  }
}
