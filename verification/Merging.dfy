/** Merging a submitted document into the tree of the file. */
module Merging {
  import opened Wrappers
  import opened Trees
  import opened Schema
  import opened Sorting
  import opened Identity

  datatype Code = MergeConflict | SentinelMisuse | LiteralSecretForbidden | RootNotMapping | CandidateInvalid

  // ---- Key order ----

  predicate StrLess(a: string, b: string) {
    b != [] && (a == [] || a[0] < b[0] || (a[0] == b[0] && StrLess(a[1..], b[1..])))
  }

  function Position(cs: seq<Field>, key: string): (r: Option<nat>)
    ensures r.Some? ==> r.value < |cs| && cs[r.value].name == key
  {
    if cs == [] then None
    else if cs[0].name == key then Some(0)
    else
      match Position(cs[1..], key)
      case None => None
      case Some(p) => Some(p + 1)
  }

  /** `schemaPosition`. */
  function SchemaPosition(f: Option<Field>, key: string): Option<nat> {
    if f.None? then None else Position(f.value.children, key)
  }

  predicate KeyBefore(f: Option<Field>, a: string, b: string) {
    match (SchemaPosition(f, a), SchemaPosition(f, b))
    case (Some(p), Some(q)) => p < q
    case (Some(_), None) => true
    case (None, Some(_)) => false
    case (None, None) => StrLess(a, b)
  }

  /** `orderKeys` on distinct keys: schema order first, then the rest alphabetically. */
  function OrderKeys(keys: seq<string>, f: Option<Field>): seq<string> {
    Sort(keys, (a, b) => KeyBefore(f, a, b))
  }

  /** Keys in order of first appearance, without those in `skip`. */
  function FirstKeys(es: seq<Entry>, skip: set<string>): (ks: seq<string>)
    ensures NoDuplicates(ks)
    ensures forall k :: k in ks <==> k in Keys(es) && k !in skip
  {
    if es == [] then []
    else
      var rest := FirstKeys(es[1..], skip + {es[0].key});
      assert Keys(es) == {es[0].key} + Keys(es[1..]);
      if es[0].key in skip then rest else [es[0].key] + rest
  }

  // ---- The merge ----

  /** The entries of the base that the submitted mapping still has. */
  function Surviving(es: seq<Entry>, wanted: set<string>): (r: seq<Entry>)
    ensures forall e :: e in r <==> e in es && e.key in wanted
  {
    if es == [] then []
    else (if es[0].key in wanted then [es[0]] else []) + Surviving(es[1..], wanted)
  }

  /** Index of the first entry whose schema position is after `pos`, else the length. */
  function FirstLater(es: seq<Entry>, pos: nat, f: Option<Field>): (i: nat)
    ensures i <= |es|
    ensures forall j | 0 <= j < i :: !IsLater(es[j].key, pos, f)
    ensures i < |es| ==> IsLater(es[i].key, pos, f)
  {
    if es == [] || IsLater(es[0].key, pos, f) then 0 else 1 + FirstLater(es[1..], pos, f)
  }

  predicate IsLater(key: string, pos: nat, f: Option<Field>) {
    var p := SchemaPosition(f, key);
    p.Some? && p.value > pos
  }

  /** `insertChildBySchema`. */
  function Insert(es: seq<Entry>, e: Entry, f: Option<Field>): (r: seq<Entry>)
    ensures |r| == |es| + 1
  {
    match SchemaPosition(f, e.key)
    case None => es + [e]
    case Some(pos) =>
      var at := FirstLater(es, pos, f);
      es[..at] + [e] + es[at..]
  }

  function InsertAll(es: seq<Entry>, ks: seq<string>, ds: seq<Entry>, f: Option<Field>): seq<Entry>
    requires forall k | k in ks :: k in Keys(ds)
    decreases |ks|
  {
    if ks == [] then es
    else
      InsertAll(Insert(es, Entry(ks[0], "", ds[LastIndexOf(ds, ks[0])].value), f), ks[1..], ds, f)
  }

  /** A new list item: its keys in schema order, the first value of each. */
  function Rebuild(d: Tree, f: Option<Field>): Tree {
    if !d.Mapping? then d
    else
      var ks := OrderKeys(FirstKeys(d.entries, {}), f);
      SortKeepsDistinct(FirstKeys(d.entries, {}), (a, b) => KeyBefore(f, a, b));
      Mapping(seq(|ks|, i requires 0 <= i < |ks| =>
        assert ks[i] in ks;
        Entry(ks[i], "", d.entries[IndexOf(d.entries, ks[i])].value)), "")
  }

  function WithValue(e: Entry, r: Result<Tree, Code>): Result<Entry, Code> {
    match r
    case Ok(t) => Ok(e.(value := t))
    case Err(c) => Err(c)
  }

  /** The keys of `ds` that the merged mapping lacks, in insertion order. */
  function NewKeys(es: seq<Entry>, ds: seq<Entry>, f: Option<Field>): (ks: seq<string>)
    ensures NoDuplicates(ks)
    ensures forall k :: k in ks <==> k in Keys(ds) && k !in Keys(es)
  {
    var absent := FirstKeys(ds, Keys(es));
    SortKeepsDistinct(absent, (a, b) => KeyBefore(f, a, b));
    OrderKeys(absent, f)
  }

  /** `mergeNode`: the base tree changed into the submitted one, keeping its order and comments. */
  function Merge(b: Tree, d: Tree, f: Option<Field>, path: string): Result<Tree, Code>
    decreases d
  {
    match (b, d)
    case (Scalar(_, text, note), Scalar(tag', text', _)) =>
      Ok(if text != text' then Scalar(tag', text', note) else b)
    case (Mapping(es, note), Mapping(ds, _)) =>
      var kept := Surviving(es, Keys(ds));
      var merged := Collect(seq(|kept|, i requires 0 <= i < |kept| =>
        assert kept[i] in kept;
        var k := kept[i].key;
        WithValue(kept[i], Merge(kept[i].value, ds[LastIndexOf(ds, k)].value, ChildSchema(f, k), Join(path, k)))));
      if merged.Err? then Err(merged.error)
      else Ok(Mapping(InsertAll(merged.value, NewKeys(merged.value, ds, f), ds, f), note))
    case (Sequence(items, note), Sequence(ds, _)) =>
      var keys := IdentityKeys(f);
      if keys == [] then Ok(Sequence(ds, note))
      else
        var bids, dids := Idents(items, keys, path), Idents(ds, keys, path);
        if Repeats(bids) || Unidentified(dids) || Repeats(dids) then Err(MergeConflict)
        else
          var merged := Collect(seq(|ds|, i requires 0 <= i < |ds| =>
            match Find(bids, dids[i].value)
            case Some(j) => Merge(items[j], ds[i], ItemSchema(f), Items(path))
            case None => Ok(Rebuild(ds[i], ItemSchema(f)))));
          if merged.Err? then Err(merged.error) else Ok(Sequence(merged.value, note))
    case _ => Ok(d)
  }

  // ---- Mapping facts ----

  lemma {:induction false} SurvivingKeys(es: seq<Entry>, wanted: set<string>)
    requires Distinct(es)
    ensures Distinct(Surviving(es, wanted))
    ensures Keys(Surviving(es, wanted)) == Keys(es) * wanted
  {
    var r := Surviving(es, wanted);
    forall k ensures k in Keys(r) <==> k in Keys(es) * wanted {
      if k in Keys(r) {
        var i :| 0 <= i < |r| && r[i].key == k;
        assert r[i] in r;
        var j :| 0 <= j < |es| && es[j] == r[i];
      }
      if k in Keys(es) * wanted {
        var j :| 0 <= j < |es| && es[j].key == k;
        assert es[j] in r;
      }
    }
    if es != [] {
      SurvivingKeys(es[1..], wanted);
      forall j | 0 <= j < |Surviving(es[1..], wanted)| ensures Surviving(es[1..], wanted)[j].key != es[0].key {
        assert Surviving(es[1..], wanted)[j] in Surviving(es[1..], wanted);
      }
    }
  }

  /** What a mapping holds under a key, as one term. */
  function Under(es: seq<Entry>, k: string): Tree
    requires k in Keys(es)
  {
    es[IndexOf(es, k)].value
  }

  lemma {:induction false} InsertAtKeys(es: seq<Entry>, at: nat, e: Entry)
    requires Distinct(es) && e.key !in Keys(es) && at <= |es|
    ensures var r := es[..at] + [e] + es[at..]; Distinct(r) && Keys(r) == Keys(es) + {e.key}
  {
    var r := es[..at] + [e] + es[at..];
    forall i | 0 <= i < |es| ensures es[i].key in Keys(es) {}
    forall k ensures k in Keys(r) <==> k in Keys(es) + {e.key} {
      if k in Keys(es) {
        var i := IndexOf(es, k);
        assert r[if i < at then i else i + 1].key == k;
      }
      assert r[at].key == e.key;
    }
  }

  lemma {:induction false} InsertAtUnder(es: seq<Entry>, at: nat, e: Entry, k: string)
    requires Distinct(es) && e.key !in Keys(es) && at <= |es|
    ensures var r := es[..at] + [e] + es[at..];
            (k in Keys(es) ==> k in Keys(r) && Under(r, k) == Under(es, k)) &&
            (k == e.key ==> k in Keys(r) && Under(r, k) == e.value)
  {
    InsertAtKeys(es, at, e);
    var r := es[..at] + [e] + es[at..];
    if k in Keys(es) {
      var i := IndexOf(es, k);
      var j := if i < at then i else i + 1;
      assert r[j] == es[i];
      FieldAt(r, j);
    } else if k == e.key {
      assert r[at] == e;
      FieldAt(r, at);
    }
  }

  lemma {:induction false} InsertFacts(es: seq<Entry>, e: Entry, f: Option<Field>)
    requires Distinct(es) && e.key !in Keys(es)
    ensures var r := Insert(es, e, f);
            Distinct(r) && Keys(r) == Keys(es) + {e.key} && Under(r, e.key) == e.value &&
            forall k | k in Keys(es) :: Under(r, k) == Under(es, k)
  {
    var pos := SchemaPosition(f, e.key);
    var at := if pos.None? then |es| else FirstLater(es, pos.value, f);
    assert Insert(es, e, f) == es[..at] + [e] + es[at..];
    InsertAtKeys(es, at, e);
    InsertAtUnder(es, at, e, e.key);
    forall k | k in Keys(es) ensures Under(Insert(es, e, f), k) == Under(es, k) {
      InsertAtUnder(es, at, e, k);
    }
  }

  /** New keys: no repetitions, all submitted, none there already. */
  ghost predicate AllNew(es: seq<Entry>, ks: seq<string>, ds: seq<Entry>) {
    Distinct(es) && Distinct(ds) && NoDuplicates(ks) && forall k | k in ks :: k in Keys(ds) && k !in Keys(es)
  }

  /** The first insertion. */
  lemma {:induction false} InsertFirst(es: seq<Entry>, ks: seq<string>, ds: seq<Entry>, f: Option<Field>)
      returns (next: seq<Entry>)
    requires AllNew(es, ks, ds) && ks != []
    ensures InsertAll(es, ks, ds, f) == InsertAll(next, ks[1..], ds, f) && AllNew(next, ks[1..], ds)
    ensures Keys(next) == Keys(es) + {ks[0]} && Under(next, ks[0]) == Under(ds, ks[0])
    ensures forall k | k in Keys(es) :: Under(next, k) == Under(es, k)
  {
    var k0 := ks[0];
    var e := Entry(k0, "", ds[LastIndexOf(ds, k0)].value);
    InsertFacts(es, e, f);
    SameFirstLast(ds, k0);
    next := Insert(es, e, f);
    assert forall k | k in ks[1..] :: k in ks && k != k0;
  }

  lemma {:induction false} InsertAllKeys(es: seq<Entry>, ks: seq<string>, ds: seq<Entry>, f: Option<Field>)
    requires AllNew(es, ks, ds)
    ensures var r := InsertAll(es, ks, ds, f); Distinct(r) && Keys(r) == Keys(es) + (set k | k in ks)
    decreases |ks|
  {
    if ks != [] {
      var next := InsertFirst(es, ks, ds, f);
      InsertAllKeys(next, ks[1..], ds, f);
      assert (set k | k in ks) == {ks[0]} + (set k | k in ks[1..]) by { assert ks == [ks[0]] + ks[1..]; }
    }
  }

  lemma {:induction false} InsertAllUnder(es: seq<Entry>, ks: seq<string>, ds: seq<Entry>, f: Option<Field>, k: string)
    requires AllNew(es, ks, ds) && (k in Keys(es) || k in ks)
    ensures var r := InsertAll(es, ks, ds, f);
            k in Keys(r) && Under(r, k) == if k in Keys(es) then Under(es, k) else Under(ds, k)
    decreases |ks|
  {
    if ks != [] {
      var next := InsertFirst(es, ks, ds, f);
      assert k in ks ==> k == ks[0] || k in ks[1..];
      InsertAllUnder(next, ks[1..], ds, f, k);
    }
  }

  lemma {:induction false} RebuildKeys(ds: seq<Entry>, note: string, f: Option<Field>)
    ensures var r := Rebuild(Mapping(ds, note), f).entries;
            Distinct(r) && Keys(r) == Keys(ds) && forall i | 0 <= i < |r| ::
              r[i].key in Keys(ds) && r[i].value == Under(ds, r[i].key)
  {
    var r := Rebuild(Mapping(ds, note), f).entries;
    var ks := OrderKeys(FirstKeys(ds, {}), f);
    SortKeepsDistinct(FirstKeys(ds, {}), (a, b) => KeyBefore(f, a, b));
    assert forall i | 0 <= i < |r| :: r[i].key == ks[i] && ks[i] in ks;
    forall k | k in Keys(ds) ensures k in Keys(r) {
      assert k in ks;
      var i :| 0 <= i < |ks| && ks[i] == k;
      assert r[i].key == k;
    }
  }

  /** Rebuilding a new item only reorders its keys. */
  lemma {:induction false} RebuildFacts(d: Tree, f: Option<Field>)
    requires KeysDistinct(d)
    ensures Abs(Rebuild(d, f)) == Abs(d) && KeysDistinct(Rebuild(d, f))
  {
    if d.Mapping? {
      var ds, r := d.entries, Rebuild(d, f).entries;
      RebuildKeys(ds, d.note, f);
      forall k | k in Keys(r) ensures Under(r, k) == Under(ds, k) {
        assert r[IndexOf(r, k)].key == k;
      }
      DictsEqual(r, ds, "", d.note);
    }
  }
}
