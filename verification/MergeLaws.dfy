/** What a merge guarantees: the submitted value, the base's key order and comments. */
module MergeLaws {
  import opened Wrappers
  import opened Trees
  import opened Schema
  import opened Identity
  import opened Merging

  /** No scalar of the base meets a submitted scalar of the same text but another tag. The merge
      compares texts only, so such an edit (say `"8080"` to `8080`) is dropped. */
  ghost predicate TagsAgree(b: Tree, d: Tree, f: Option<Field>, path: string)
    decreases d
  {
    match (b, d)
    case (Scalar(tag, text, _), Scalar(tag', text', _)) => text == text' ==> tag == tag'
    case (Mapping(es, _), Mapping(ds, _)) =>
      forall k | k in Keys(es) && k in Keys(ds) ::
        TagsAgree(Under(es, k), ds[IndexOf(ds, k)].value, ChildSchema(f, k), Join(path, k))
    case (Sequence(items, _), Sequence(ds, _)) =>
      var keys := IdentityKeys(f);
      keys != [] ==>
        var bids, dids := Idents(items, keys, path), Idents(ds, keys, path);
        forall i | 0 <= i < |ds| && dids[i].Some? && Find(bids, dids[i].value).Some? ::
          TagsAgree(items[Find(bids, dids[i].value).value], ds[i], ItemSchema(f), Items(path))
    case _ => true
  }

  /** A successful merge means exactly the submitted document, unless an edit changed only a tag. */
  lemma {:induction false} MergeExact(b: Tree, d: Tree, f: Option<Field>, path: string)
    requires KeysDistinct(b) && KeysDistinct(d)
    ensures var r := Merge(b, d, f, path);
            r.Ok? ==> KeysDistinct(r.value) && (Abs(r.value) == Abs(d) <==> TagsAgree(b, d, f, path))
    decreases d, 1
  {
    if Merge(b, d, f, path).Ok? {
      match (b, d)
      case (Scalar(_, _, _), Scalar(_, _, _)) =>
      case (Mapping(_, _), Mapping(_, _)) => MergeMappingExact(b, d, f, path);
      case (Sequence(_, _), Sequence(_, _)) => MergeSequenceExact(b, d, f, path);
      case _ =>
    }
  }

  /** The surviving entries of a mapping after their values were merged. */
  ghost function MergedEntries(es: seq<Entry>, ds: seq<Entry>, f: Option<Field>,
                               path: string): Result<seq<Entry>, Code> {
    var kept := Surviving(es, Keys(ds));
    Collect(seq(|kept|, i requires 0 <= i < |kept| =>
      assert kept[i] in kept;
      var k := kept[i].key;
      WithValue(kept[i], Merge(kept[i].value, ds[LastIndexOf(ds, k)].value, ChildSchema(f, k), Join(path, k)))))
  }

  lemma {:induction false} MergedKeys(es: seq<Entry>, ds: seq<Entry>, f: Option<Field>, path: string)
    requires Distinct(es) && MergedEntries(es, ds, f, path).Ok?
    ensures var kept, m := Surviving(es, Keys(ds)), MergedEntries(es, ds, f, path).value;
            Labels(m) == Labels(kept) && Distinct(m) && Keys(m) == Keys(es) * Keys(ds)
  {
    var kept, m := Surviving(es, Keys(ds)), MergedEntries(es, ds, f, path).value;
    SurvivingKeys(es, Keys(ds));
    assert forall i | 0 <= i < |m| :: m[i].key == kept[i].key && m[i].keyNote == kept[i].keyNote;
    SameLabels(m, kept);
  }

  lemma {:induction false} SameLabels(xs: seq<Entry>, ys: seq<Entry>)
    requires |xs| == |ys| && forall i | 0 <= i < |xs| :: xs[i].key == ys[i].key && xs[i].keyNote == ys[i].keyNote
    ensures Labels(xs) == Labels(ys) && Keys(xs) == Keys(ys) && (Distinct(ys) ==> Distinct(xs))
  {
  }

  lemma {:induction false} MergedUnder(es: seq<Entry>, ds: seq<Entry>, f: Option<Field>, path: string, k: string)
    requires Distinct(es) && Distinct(ds) && MergedEntries(es, ds, f, path).Ok?
    requires k in Keys(MergedEntries(es, ds, f, path).value)
    ensures k in Keys(es) && k in Keys(ds)
    ensures Merge(Under(es, k), Under(ds, k), ChildSchema(f, k), Join(path, k)) ==
            Ok(Under(MergedEntries(es, ds, f, path).value, k))
  {
    var kept, m := Surviving(es, Keys(ds)), MergedEntries(es, ds, f, path).value;
    var i := IndexOf(m, k);
    assert kept[i] in kept;
    var j :| 0 <= j < |es| && es[j] == kept[i];
    FieldAt(es, j);
    SameFirstLast(ds, k);
  }

  /** The entries of a merged mapping, key by key. */
  lemma {:induction false} MergedMapping(b: Tree, d: Tree, f: Option<Field>, path: string)
    requires b.Mapping? && d.Mapping? && KeysDistinct(b) && KeysDistinct(d) && Merge(b, d, f, path).Ok?
    ensures var r := Merge(b, d, f, path).value;
            r.Mapping? && Distinct(r.entries) && Keys(r.entries) == Keys(d.entries) &&
            forall k | k in Keys(d.entries) ::
              if k in Keys(b.entries)
              then Merge(Under(b.entries, k), Under(d.entries, k), ChildSchema(f, k), Join(path, k)) ==
                Ok(Under(r.entries, k))
              else Under(r.entries, k) == Under(d.entries, k)
  {
    var es, ds := b.entries, d.entries;
    MergedWhole(b, d, f, path);
    var m := MergedEntries(es, ds, f, path).value;
    MergedKeys(es, ds, f, path);
    Inserted(es, ds, m, f);
    forall k | k in Keys(ds) && k in Keys(es)
      ensures Merge(Under(es, k), Under(ds, k), ChildSchema(f, k), Join(path, k)) == Ok(Under(m, k))
    {
      MergedUnder(es, ds, f, path, k);
    }
  }

  /** Inserting the new keys into the merged ones `m` completes the submitted keys. */
  lemma {:induction false} Inserted(es: seq<Entry>, ds: seq<Entry>, m: seq<Entry>, f: Option<Field>)
    requires Distinct(ds) && Distinct(m) && Keys(m) == Keys(es) * Keys(ds)
    ensures var r := InsertAll(m, NewKeys(m, ds, f), ds, f);
            Distinct(r) && Keys(r) == Keys(ds) &&
            forall k | k in Keys(ds) :: Under(r, k) == if k in Keys(es) then Under(m, k) else Under(ds, k)
  {
    var ks := NewKeys(m, ds, f);
    InsertAllKeys(m, ks, ds, f);
    forall k | k in Keys(ds)
      ensures Under(InsertAll(m, ks, ds, f), k) == if k in Keys(es) then Under(m, k) else Under(ds, k)
    {
      assert k !in Keys(es) ==> k in ks;
      InsertAllUnder(m, ks, ds, f, k);
    }
  }

  lemma {:induction false} MergedWhole(b: Tree, d: Tree, f: Option<Field>, path: string)
    requires b.Mapping? && d.Mapping? && Merge(b, d, f, path).Ok?
    ensures MergedEntries(b.entries, d.entries, f, path).Ok?
    ensures var m := MergedEntries(b.entries, d.entries, f, path).value;
            Merge(b, d, f, path) == Ok(Mapping(InsertAll(m, NewKeys(m, d.entries, f), d.entries, f), b.note))
  {
  }

  lemma {:induction false} MergeMappingExact(b: Tree, d: Tree, f: Option<Field>, path: string)
    requires b.Mapping? && d.Mapping? && KeysDistinct(b) && KeysDistinct(d) && Merge(b, d, f, path).Ok?
    ensures var r := Merge(b, d, f, path).value;
            KeysDistinct(r) && (Abs(r) == Abs(d) <==> TagsAgree(b, d, f, path))
    decreases d, 0
  {
    MergedMapping(b, d, f, path);
    var es, ds, r := b.entries, d.entries, Merge(b, d, f, path).value.entries;
    forall k | k in Keys(ds)
      ensures KeysDistinct(Under(r, k))
      ensures Abs(Under(r, k)) == Abs(Under(ds, k)) <==>
              (k in Keys(es) ==> TagsAgree(Under(es, k), Under(ds, k), ChildSchema(f, k), Join(path, k)))
    {
      if k in Keys(es) {
        MergeExact(Under(es, k), Under(ds, k), ChildSchema(f, k), Join(path, k));
      }
    }
    DictsEqual(r, ds, b.note, d.note);
    forall i | 0 <= i < |r| ensures KeysDistinct(r[i].value) {
      FieldAt(r, i);
      assert r[i].value == Under(r, r[i].key);
    }
  }

  lemma {:induction false} MergeSequenceExact(b: Tree, d: Tree, f: Option<Field>, path: string)
    requires b.Sequence? && d.Sequence? && KeysDistinct(b) && KeysDistinct(d) && Merge(b, d, f, path).Ok?
    ensures var r := Merge(b, d, f, path).value;
            KeysDistinct(r) && (Abs(r) == Abs(d) <==> TagsAgree(b, d, f, path))
    decreases d, 0
  {
    var items, ds, keys := b.items, d.items, IdentityKeys(f);
    var r := Merge(b, d, f, path).value;
    if keys != [] {
      var bids, dids := Idents(items, keys, path), Idents(ds, keys, path);
      forall i | 0 <= i < |ds|
        ensures KeysDistinct(r.items[i])
        ensures Abs(r.items[i]) == Abs(ds[i]) <==>
                (Find(bids, dids[i].value).Some? ==>
                   TagsAgree(items[Find(bids, dids[i].value).value], ds[i], ItemSchema(f), Items(path)))
      {
        match Find(bids, dids[i].value)
        case Some(j) => MergeExact(items[j], ds[i], ItemSchema(f), Items(path));
        case None => RebuildFacts(ds[i], ItemSchema(f));
      }
      ListsEqual(r.items, ds, r.note, d.note);
    } else {
      ListsEqual(r.items, ds, r.note, d.note);
    }
  }

  // ---- Key order and comments ----

  /** Keys of a mapping with the comments attached to them, in order. */
  function Labels(es: seq<Entry>): seq<(string, string)> {
    seq(|es|, i requires 0 <= i < |es| => (es[i].key, es[i].keyNote))
  }

  /** The labels whose key is in `wanted`. */
  function Only(ls: seq<(string, string)>, wanted: set<string>): seq<(string, string)> {
    if ls == [] then []
    else (if ls[0].0 in wanted then [ls[0]] else []) + Only(ls[1..], wanted)
  }

  lemma {:induction false} OnlyOfConcat(xs: seq<(string, string)>, ys: seq<(string, string)>, wanted: set<string>)
    ensures Only(xs + ys, wanted) == Only(xs, wanted) + Only(ys, wanted)
  {
    if xs == [] {
      assert xs + ys == ys;
    } else {
      OnlyOfConcat(xs[1..], ys, wanted);
      assert (xs + ys)[0] == xs[0] && (xs + ys)[1..] == xs[1..] + ys;
      var head := if xs[0].0 in wanted then [xs[0]] else [];
      assert head + (Only(xs[1..], wanted) + Only(ys, wanted)) == (head + Only(xs[1..], wanted)) + Only(ys, wanted);
    }
  }

  lemma {:induction false} OnlySurviving(es: seq<Entry>, wanted: set<string>)
    ensures Labels(Surviving(es, wanted)) == Only(Labels(es), wanted)
  {
    if es != [] {
      OnlySurviving(es[1..], wanted);
      assert Labels(es)[1..] == Labels(es[1..]);
      var rest := Surviving(es[1..], wanted);
      assert Labels([es[0]] + rest) == [(es[0].key, es[0].keyNote)] + Labels(rest);
      assert [] + rest == rest;
    }
  }

  lemma {:induction false} OnlyAll(ls: seq<(string, string)>, wanted: set<string>)
    requires forall l | l in ls :: l.0 in wanted
    ensures Only(ls, wanted) == ls
  {
    if ls != [] {
      OnlyAll(ls[1..], wanted);
    }
  }

  lemma {:induction false} OnlyInsert(es: seq<Entry>, e: Entry, f: Option<Field>, wanted: set<string>)
    requires e.key !in wanted
    ensures Only(Labels(Insert(es, e, f)), wanted) == Only(Labels(es), wanted)
  {
    var pos := SchemaPosition(f, e.key);
    var at := if pos.None? then |es| else FirstLater(es, pos.value, f);
    var xs, ys := Labels(es[..at]), Labels(es[at..]);
    assert Labels(Insert(es, e, f)) == xs + ([(e.key, e.keyNote)] + ys);
    assert Labels(es) == xs + ys;
    OnlyOfConcat(xs, ys, wanted);
    OnlyOfConcat(xs, [(e.key, e.keyNote)] + ys, wanted);
    OnlyOfConcat([(e.key, e.keyNote)], ys, wanted);
    assert [] + Only(ys, wanted) == Only(ys, wanted);
  }

  lemma {:induction false} OnlyInsertAll(es: seq<Entry>, ks: seq<string>, ds: seq<Entry>, f: Option<Field>,
                                         wanted: set<string>)
    requires forall k | k in ks :: k in Keys(ds) && k !in wanted
    ensures Only(Labels(InsertAll(es, ks, ds, f)), wanted) == Only(Labels(es), wanted)
    decreases |ks|
  {
    if ks != [] {
      var e := Entry(ks[0], "", ds[LastIndexOf(ds, ks[0])].value);
      OnlyInsert(es, e, f, wanted);
      OnlyInsertAll(Insert(es, e, f), ks[1..], ds, f, wanted);
    }
  }

  /** In a merged mapping the keys that were in the base keep their comments and their order: what
      is left of the result without the new keys is the base without the removed ones. The
      mapping's own comments stay too. */
  lemma {:induction false} MergeKeepsOrder(b: Tree, d: Tree, f: Option<Field>, path: string)
    requires b.Mapping? && d.Mapping? && KeysDistinct(b) && KeysDistinct(d) && Merge(b, d, f, path).Ok?
    ensures var r := Merge(b, d, f, path).value;
            r.Mapping? && r.note == b.note &&
            Only(Labels(r.entries), Keys(b.entries)) == Only(Labels(b.entries), Keys(d.entries))
  {
    var es, ds := b.entries, d.entries;
    var m := MergedEntries(es, ds, f, path).value;
    MergedKeys(es, ds, f, path);
    var ks := NewKeys(m, ds, f);
    OnlyInsertAll(m, ks, ds, f, Keys(es));
    OnlySurviving(es, Keys(ds));
    forall l | l in Labels(m) ensures l.0 in Keys(m) {}
    OnlyAll(Labels(m), Keys(es));
    assert Merge(b, d, f, path) == Ok(Mapping(InsertAll(m, ks, ds, f), b.note));
  }

  /** The keys the schema knows stand in schema order. */
  ghost predicate InSchemaOrder(es: seq<Entry>, f: Option<Field>) {
    forall i, j | 0 <= i < j < |es| && SchemaPosition(f, es[i].key).Some? && SchemaPosition(f, es[j].key).Some? ::
      SchemaPosition(f, es[i].key).value <= SchemaPosition(f, es[j].key).value
  }

  lemma {:induction false} InsertInOrder(es: seq<Entry>, e: Entry, f: Option<Field>)
    requires InSchemaOrder(es, f)
    ensures InSchemaOrder(Insert(es, e, f), f)
  {
    var pos := SchemaPosition(f, e.key);
    if pos.Some? {
      var at := FirstLater(es, pos.value, f);
      var r := Insert(es, e, f);
      assert forall i | 0 <= i < |r| :: r[i] == if i < at then es[i] else if i == at then e else es[i - 1];
      forall i, j | 0 <= i < j < |r| && SchemaPosition(f, r[i].key).Some? && SchemaPosition(f, r[j].key).Some?
        ensures SchemaPosition(f, r[i].key).value <= SchemaPosition(f, r[j].key).value
      {
        if j == at {
          assert !IsLater(es[i].key, pos.value, f);
        } else if i == at && at < |es| {
          assert IsLater(es[at].key, pos.value, f);
        }
      }
    }
  }

  lemma {:induction false} InsertAllInOrder(es: seq<Entry>, ks: seq<string>, ds: seq<Entry>, f: Option<Field>)
    requires InSchemaOrder(es, f) && forall k | k in ks :: k in Keys(ds)
    ensures InSchemaOrder(InsertAll(es, ks, ds, f), f)
    decreases |ks|
  {
    if ks != [] {
      var e := Entry(ks[0], "", ds[LastIndexOf(ds, ks[0])].value);
      InsertInOrder(es, e, f);
      InsertAllInOrder(Insert(es, e, f), ks[1..], ds, f);
    }
  }

  lemma {:induction false} SurvivingInOrder(es: seq<Entry>, wanted: set<string>, f: Option<Field>)
    requires InSchemaOrder(es, f)
    ensures InSchemaOrder(Surviving(es, wanted), f)
  {
    if es != [] {
      SurvivingInOrder(es[1..], wanted, f);
      var rest := Surviving(es[1..], wanted);
      forall j | 0 <= j < |rest| && SchemaPosition(f, es[0].key).Some? && SchemaPosition(f, rest[j].key).Some?
        ensures SchemaPosition(f, es[0].key).value <= SchemaPosition(f, rest[j].key).value
      {
        assert rest[j] in rest;
        var i :| 0 <= i < |es[1..]| && es[1..][i] == rest[j];
        assert es[i + 1] == rest[j];
      }
    }
  }

  /** If the known keys of the base stand in schema order, they still do after all insertions. */
  lemma {:induction false} MergeKeepsSchemaOrder(b: Tree, d: Tree, f: Option<Field>, path: string)
    requires b.Mapping? && d.Mapping? && KeysDistinct(b) && KeysDistinct(d) && Merge(b, d, f, path).Ok?
    requires InSchemaOrder(b.entries, f)
    ensures InSchemaOrder(Merge(b, d, f, path).value.entries, f)
  {
    var es, ds := b.entries, d.entries;
    var m := MergedEntries(es, ds, f, path).value;
    MergedKeys(es, ds, f, path);
    SurvivingInOrder(es, Keys(ds), f);
    OrderByLabels(Surviving(es, Keys(ds)), m, f);
    MergedWhole(b, d, f, path);
    InsertAllInOrder(m, NewKeys(m, ds, f), ds, f);
  }

  /** Only the keys matter for the schema order. */
  lemma {:induction false} OrderByLabels(xs: seq<Entry>, ys: seq<Entry>, f: Option<Field>)
    requires Labels(xs) == Labels(ys) && InSchemaOrder(xs, f)
    ensures InSchemaOrder(ys, f)
  {
    assert |xs| == |Labels(xs)| == |ys|;
    forall i | 0 <= i < |ys| ensures ys[i].key == xs[i].key {
      assert Labels(xs)[i] == Labels(ys)[i];
    }
  }

  /** What a merged mapping keeps of its own. */
  ghost predicate OwnLayoutKept(b: Tree, d: Tree, r: Tree, f: Option<Field>)
    requires b.Mapping? && d.Mapping?
  {
    r.Mapping? && r.note == b.note &&
    Only(Labels(r.entries), Keys(b.entries)) == Only(Labels(b.entries), Keys(d.entries)) &&
    (InSchemaOrder(b.entries, f) ==> InSchemaOrder(r.entries, f))
  }

  /** Order and comments of the base in the merged tree, at every place that is in both: scalars and
      containers keep their comments; in a mapping the keys of the base keep their order and comments,
      and known keys that stood in schema order still do; list items are compared with the base item of
      the same identity. */
  ghost predicate LayoutKept(b: Tree, d: Tree, r: Tree, f: Option<Field>, path: string)
    decreases d
  {
    match (b, d)
    case (Scalar(_, _, note), Scalar(_, _, _)) => r.Scalar? && r.note == note
    case (Mapping(es, _), Mapping(ds, _)) =>
      OwnLayoutKept(b, d, r, f) &&
      forall k | k in Keys(es) && k in Keys(ds) ::
        k in Keys(r.entries) &&
        LayoutKept(Under(es, k), ds[IndexOf(ds, k)].value, Under(r.entries, k), ChildSchema(f, k), Join(path, k))
    case (Sequence(items, note), Sequence(ds, _)) =>
      var keys := IdentityKeys(f);
      r.Sequence? && r.note == note && |r.items| == |ds| &&
      (keys != [] ==>
         var bids, dids := Idents(items, keys, path), Idents(ds, keys, path);
         forall i | 0 <= i < |ds| && dids[i].Some? && Find(bids, dids[i].value).Some? ::
           LayoutKept(items[Find(bids, dids[i].value).value], ds[i], r.items[i], ItemSchema(f), Items(path)))
    case _ => r == d
  }

  /** A merge keeps order and comments of the base at every depth. */
  lemma {:induction false} MergeKeepsLayout(b: Tree, d: Tree, f: Option<Field>, path: string)
    requires KeysDistinct(b) && KeysDistinct(d) && Merge(b, d, f, path).Ok?
    ensures LayoutKept(b, d, Merge(b, d, f, path).value, f, path)
    decreases d, 1
  {
    match (b, d)
    case (Mapping(_, _), Mapping(_, _)) => MappingKeepsLayout(b, d, f, path);
    case (Sequence(_, _), Sequence(_, _)) => SequenceKeepsLayout(b, d, f, path);
    case _ =>
  }

  lemma {:induction false} OwnLayout(b: Tree, d: Tree, f: Option<Field>, path: string)
    requires b.Mapping? && d.Mapping? && KeysDistinct(b) && KeysDistinct(d) && Merge(b, d, f, path).Ok?
    ensures OwnLayoutKept(b, d, Merge(b, d, f, path).value, f)
  {
    MergeKeepsOrder(b, d, f, path);
    if InSchemaOrder(b.entries, f) {
      MergeKeepsSchemaOrder(b, d, f, path);
    }
  }

  lemma {:induction false} MappingKeepsLayout(b: Tree, d: Tree, f: Option<Field>, path: string)
    requires b.Mapping? && d.Mapping? && KeysDistinct(b) && KeysDistinct(d) && Merge(b, d, f, path).Ok?
    ensures LayoutKept(b, d, Merge(b, d, f, path).value, f, path)
    decreases d, 0
  {
    var es, ds, r := b.entries, d.entries, Merge(b, d, f, path).value;
    OwnLayout(b, d, f, path);
    MergedMapping(b, d, f, path);
    forall k | k in Keys(es) && k in Keys(ds)
      ensures LayoutKept(Under(es, k), ds[IndexOf(ds, k)].value, Under(r.entries, k), ChildSchema(f, k), Join(path, k))
    {
      MergeKeepsLayout(Under(es, k), ds[IndexOf(ds, k)].value, ChildSchema(f, k), Join(path, k));
    }
  }

  /** The items of a merged list, one by one. */
  lemma {:induction false} MergedSequence(b: Tree, d: Tree, f: Option<Field>, path: string)
    requires b.Sequence? && d.Sequence? && Merge(b, d, f, path).Ok?
    ensures var r := Merge(b, d, f, path).value;
            r.Sequence? && r.note == b.note && |r.items| == |d.items|
    ensures IdentityKeys(f) != [] ==>
              var bids, dids := Idents(b.items, IdentityKeys(f), path), Idents(d.items, IdentityKeys(f), path);
              Told(dids) && !Repeats(bids) &&
              forall i | 0 <= i < |d.items| && Find(bids, dids[i].value).Some? ::
                Merge(b.items[Find(bids, dids[i].value).value], d.items[i], ItemSchema(f), Items(path)) ==
                Ok(Merge(b, d, f, path).value.items[i])
  {
  }

  lemma {:induction false} SequenceKeepsLayout(b: Tree, d: Tree, f: Option<Field>, path: string)
    requires b.Sequence? && d.Sequence? && KeysDistinct(b) && KeysDistinct(d) && Merge(b, d, f, path).Ok?
    ensures LayoutKept(b, d, Merge(b, d, f, path).value, f, path)
    decreases d, 0
  {
    var items, ds, keys, r := b.items, d.items, IdentityKeys(f), Merge(b, d, f, path).value;
    MergedSequence(b, d, f, path);
    if keys != [] {
      var bids, dids := Idents(items, keys, path), Idents(ds, keys, path);
      forall i | 0 <= i < |ds| && dids[i].Some? && Find(bids, dids[i].value).Some?
        ensures LayoutKept(items[Find(bids, dids[i].value).value], ds[i], r.items[i], ItemSchema(f), Items(path))
      {
        MergeKeepsLayout(items[Find(bids, dids[i].value).value], ds[i], ItemSchema(f), Items(path));
      }
    }
  }
}
