/** Merging as the program does it: the base's nodes are changed in place and keep their identity,
    submitted values come in as fresh copies. */
module MergeInPlace {
  import opened Wrappers
  import opened Trees
  import opened Schema
  import opened Sorting
  import opened Identity
  import opened Merging
  import opened NodeHeap

  // ---- Building and adopting nodes ----

  /** Separate trees, none of them holding `n`. */
  ghost predicate Apart(n: Node, kids: seq<Node>)
    reads kids, set i, o | 0 <= i < |kids| && o in kids[i].repr :: o
  {
    (forall i | 0 <= i < |kids| :: kids[i].Valid() && kids[i] in kids[i].repr && n !in kids[i].repr) &&
    (forall i, j | 0 <= i < j < |kids| :: kids[i].repr !! kids[j].repr)
  }

  /** Gives a node new fields and children. */
  method Adopt(n: Node, head: Head, kids: seq<Node>)
    requires Fits(head, |kids|) && n in n.repr && Apart(n, kids)
    modifies n
    ensures n.Valid() && n.head == head && n.kids == kids && n.repr == old(n.repr) + old(Union(ReprsOf(kids)))
    ensures n.value == Assemble(head, old(ValuesOf(kids))) && ValuesOf(kids) == old(ValuesOf(kids))
  {
    ghost var vs, rs := ValuesOf(kids), ReprsOf(kids);
    UnionHolds(rs);
    Attach(n, head, kids, n.repr + Union(rs), Assemble(head, vs));
    assert forall i | 0 <= i < |kids| :: kids[i].repr == rs[i] <= n.repr;
    n.ShapedOver();
  }

  /** Sets the fields of a node that no other tree holds. */
  method Attach(n: Node, head: Head, kids: seq<Node>, ghost repr: set<Node>, ghost value: Tree)
    requires Apart(n, kids)
    modifies n
    ensures n.head == head && n.kids == kids && n.repr == repr && n.value == value
    ensures Apart(n, kids) && ReprsOf(kids) == old(ReprsOf(kids)) && ValuesOf(kids) == old(ValuesOf(kids))
  {
    forall i | 0 <= i < |kids| ensures kids[i] != n {}
    n.head, n.kids := head, kids;
    n.repr := repr;
    n.value := value;
  }

  /** `cloneNode`: fresh nodes for a tree. */
  method Clone(t: Tree) returns (n: Node)
    ensures n.Valid() && n in n.repr && fresh(n.repr) && n.value == t
    decreases t, 1
  {
    var kids := CloneChildren(t);
    HeadAssembles(t);
    n := new Node();
    Adopt(n, HeadOf(t), kids);
  }

  method CloneChildren(t: Tree) returns (kids: seq<Node>)
    ensures |kids| == |Children(t)| && ValuesOf(kids) == Children(t) && fresh(Union(ReprsOf(kids)))
    ensures forall j | 0 <= j < |kids| :: kids[j].Valid() && kids[j] in kids[j].repr && fresh(kids[j].repr)
    ensures forall j, k | 0 <= j < k < |kids| :: kids[j].repr !! kids[k].repr
    decreases t, 0
  {
    var cs := Children(t);
    kids := [];
    for i := 0 to |cs|
      invariant |kids| == i
      invariant forall j | 0 <= j < i :: kids[j].Valid() && kids[j] in kids[j].repr && fresh(kids[j].repr)
      invariant forall j | 0 <= j < i :: kids[j].value == cs[j]
      invariant forall j, k | 0 <= j < k < i :: kids[j].repr !! kids[k].repr
    {
      var k := Clone(cs[i]);
      kids := kids + [k];
    }
    UnionHolds(ReprsOf(kids));
  }

  function HeadOf(t: Tree): Head {
    match t
    case Scalar(tag, text, note) => Head(IsScalar, tag, text, note, [])
    case Mapping(es, note) =>
      Head(IsMapping, "", "", note, seq(|es|, i requires 0 <= i < |es| => Key(es[i].key, es[i].keyNote)))
    case Sequence(_, note) => Head(IsSequence, "", "", note, [])
  }

  lemma {:induction false} HeadAssembles(t: Tree)
    ensures Fits(HeadOf(t), |Children(t)|) && Assemble(HeadOf(t), Children(t)) == t
  {
    if t.Mapping? {
      assert Assemble(HeadOf(t), Children(t)).entries == t.entries;
    }
  }

  /** `*base = *cloneNode(desired)`. */
  method Become(n: Node, t: Tree)
    requires n.Valid()
    modifies n
    ensures n.Valid() && fresh(n.repr - old(n.repr)) && n.value == t
  {
    var c := Clone(t);
    forall i | 0 <= i < |c.kids| ensures c.kids[i].Valid() && c.kids[i] in c.kids[i].repr && c.kids[i].repr <= c.repr {
      assert c.Below(i);
    }
    UnionHolds(ReprsOf(c.kids));
    Adopt(n, c.head, c.kids);
    assert c.Values() == ValuesOf(c.kids);
  }

  // ---- Mappings ----

  function KeyTexts(keys: seq<Key>): set<string> {
    set k | k in keys :: k.text
  }

  lemma {:induction false} KeysOfEntries(keys: seq<Key>, values: seq<Tree>)
    requires |keys| == |values|
    ensures Keys(EntriesOf(keys, values)) == KeyTexts(keys)
  {
    var es := EntriesOf(keys, values);
    forall k ensures k in Keys(es) <==> k in KeyTexts(keys) {
      if k in Keys(es) {
        var i :| 0 <= i < |es| && es[i].key == k;
        assert keys[i] in keys;
      }
      if k in KeyTexts(keys) {
        var key :| key in keys && key.text == k;
        var i :| 0 <= i < |keys| && keys[i] == key;
        assert es[i].key == k;
      }
    }
  }

  lemma {:induction false} SurvivingSnoc(es: seq<Entry>, e: Entry, wanted: set<string>)
    ensures Surviving(es + [e], wanted) == Surviving(es, wanted) + if e.key in wanted then [e] else []
  {
    if es == [] {
      assert [] + [e] == [e] && [e][1..] == [];
    } else {
      assert (es + [e])[0] == es[0] && (es + [e])[1..] == es[1..] + [e];
      SurvivingSnoc(es[1..], e, wanted);
      Regroup(if es[0].key in wanted then [es[0]] else [], Surviving(es[1..], wanted),
              if e.key in wanted then [e] else []);
    }
  }

  lemma {:induction false} SurvivingNext(es: seq<Entry>, i: nat, wanted: set<string>)
    requires i < |es|
    ensures Surviving(es[..i + 1], wanted) == Surviving(es[..i], wanted) + if es[i].key in wanted then [es[i]] else []
  {
    assert es[..i + 1] == es[..i] + [es[i]];
    SurvivingSnoc(es[..i], es[i], wanted);
  }

  lemma {:induction false} EntriesSnoc(keys: seq<Key>, values: seq<Tree>, k: Key, v: Tree)
    requires |keys| == |values|
    ensures EntriesOf(keys + [k], values + [v]) == EntriesOf(keys, values) + [Entry(k.text, k.note, v)]
  {
  }

  lemma {:induction false} PickedSnoc(values: seq<Tree>, from: seq<nat>, i: nat)
    requires i < |values| && forall j | 0 <= j < |from| :: from[j] < |values|
    ensures Picked(values, from + [i]) == Picked(values, from) + [values[i]]
  {
  }

  /** The pairs whose key is wanted; `from` says which they were. */
  method Filter(keys: seq<Key>, kids: seq<Node>, wanted: set<string>, ghost values: seq<Tree>)
    returns (ks: seq<Key>, ns: seq<Node>, ghost from: seq<nat>)
    requires |keys| == |kids| == |values|
    ensures |ks| == |ns| == |from| && (forall j | 0 <= j < |from| :: from[j] < |kids| && ns[j] == kids[from[j]])
    ensures forall j, k | 0 <= j < k < |from| :: from[j] < from[k]
    ensures EntriesOf(ks, Picked(values, from)) == Surviving(EntriesOf(keys, values), wanted)
  {
    ks, ns, from := [], [], [];
    ghost var es := EntriesOf(keys, values);
    for i := 0 to |kids|
      invariant |ks| == |ns| == |from| && forall j | 0 <= j < |from| :: from[j] < i && ns[j] == kids[from[j]]
      invariant forall j, k | 0 <= j < k < |from| :: from[j] < from[k]
      invariant EntriesOf(ks, Picked(values, from)) == Surviving(es[..i], wanted)
    {
      SurvivingNext(es, i, wanted);
      if keys[i].text in wanted {
        EntriesSnoc(ks, Picked(values, from), keys[i], values[i]);
        PickedSnoc(values, from, i);
        ks, ns, from := ks + [keys[i]], ns + [kids[i]], from + [i];
      }
    }
    assert es[..|es|] == es;
  }

  ghost function Picked(values: seq<Tree>, from: seq<nat>): seq<Tree>
    requires forall j | 0 <= j < |from| :: from[j] < |values|
  {
    seq(|from|, j requires 0 <= j < |from| => values[from[j]])
  }

  /** Some of a node's children, in order. */
  lemma {:induction false} KidsWithin(n: Node, kids: seq<Node>, from: seq<nat>)
    requires n.Shaped() && |kids| == |from| && forall j | 0 <= j < |from| ::
             from[j] < |n.kids| && kids[j] == n.kids[from[j]]
    requires forall j, k | 0 <= j < k < |from| :: from[j] < from[k]
    ensures Apart(n, kids) && n.repr + Union(ReprsOf(kids)) == n.repr
  {
    var rs := ReprsOf(kids);
    forall j | 0 <= j < |kids|
      ensures kids[j].Valid() && kids[j] in kids[j].repr && n !in kids[j].repr && rs[j] <= n.repr
    {
      assert n.Below(from[j]);
    }
    UnionHolds(rs);
  }

  /** Drops the pairs whose key was not submitted. */
  method DropAbsent(n: Node, wanted: set<string>)
    requires n.Valid() && n.head.kind.IsMapping?
    modifies n
    ensures n.Valid() && n.repr == old(n.repr) && n.head.kind.IsMapping? && n.head.note == old(n.head.note)
    ensures n.value == Mapping(Surviving(old(n.value.entries), wanted), n.head.note)
  {
    n.EntriesAre();
    var keys, kids;
    ghost var from;
    keys, kids, from := Filter(n.head.keys, n.kids, wanted, n.Values());
    KidsWithin(n, kids, from);
    assert ValuesOf(kids) == Picked(n.Values(), from);
    Adopt(n, n.head.(keys := keys), kids);
  }

  /** Merges one child; the node and its other children stay. */
  method MergeChild(n: Node, k: nat, d: Tree, f: Option<Field>, path: string) returns (ok: bool)
    requires k < |n.kids| && n.Shaped() && n.Below(k)
    modifies n.kids[k].repr
    ensures unchanged(n) && Apart(n, n.kids) && fresh(n.kids[k].repr - old(n.kids[k].repr))
    ensures n.Reprs() == old(n.Reprs())[k := n.kids[k].repr] && n.Values() == old(n.Values())[k := n.kids[k].value]
    ensures var r := Merge(old(n.kids[k].value), d, f, path); ok == r.Ok? && (ok ==> n.kids[k].value == r.value)
    decreases d, 5
  {
    ghost var reprs := n.Reprs();
    label Before:
    ok := MergeNode(n.kids[k], d, f, path);
    forall i | 0 <= i < |n.kids| && i != k
      ensures n.kids[i].repr == reprs[i] && n.kids[i].value == old@Before(n.kids[i].value)
      ensures n.kids[i].Valid() && n.kids[i] in reprs[i] && n !in reprs[i] && reprs[i] !! n.kids[k].repr
    {
      assert old@Before(n.Below(i));
      assert reprs[i] !! reprs[k];
    }
  }

  /** The same, and the node holds what the child holds now. */
  method MergeKid(n: Node, k: nat, d: Tree, f: Option<Field>, path: string) returns (ok: bool)
    requires k < |n.kids| && n.Shaped() && n.Below(k)
    modifies n, n.kids[k].repr
    ensures n.Shaped() && n.head == old(n.head) && n.kids == old(n.kids) && fresh(n.repr - old(n.repr))
    ensures n.Values() == old(n.Values())[k := n.kids[k].value]
    ensures var r := Merge(old(n.kids[k].value), d, f, path); ok == r.Ok? && (ok ==> n.kids[k].value == r.value)
    decreases d, 6
  {
    ghost var reprs := n.Reprs();
    assert forall i | 0 <= i < |n.kids| :: reprs[i] <= n.repr by {
      forall i | 0 <= i < |n.kids| ensures reprs[i] <= n.repr {
        assert n.Below(i);
      }
    }
    ok := MergeChild(n, k, d, f, path);
    assert forall i | 0 <= i < |n.kids| :: n.kids[i].repr == n.Reprs()[i];
    Grow(n, n.kids[k].repr);
  }

  /** Adds `more` to what a node holds. */
  ghost method Grow(n: Node, more: set<Node>)
    requires n in n.repr && Fits(n.head, |n.kids|) && Apart(n, n.kids)
    requires forall i | 0 <= i < |n.kids| :: n.kids[i].repr <= n.repr + more
    modifies n`repr
    ensures n.repr == old(n.repr) + more && n.Shaped() && n.Values() == old(n.Values())
  {
    n.repr := n.repr + more;
    assert forall i | 0 <= i < |n.kids| :: n.kids[i].Valid();
    n.ShapedOver();
  }

  /** What merging makes of the `i`-th surviving entry. */
  function MergedEntry(kept: seq<Entry>, ds: seq<Entry>, f: Option<Field>, path: string, i: nat): Result<Tree, Code>
    requires i < |kept| && kept[i].key in Keys(ds)
  {
    var k := kept[i].key;
    Merge(kept[i].value, ds[LastIndexOf(ds, k)].value, ChildSchema(f, k), Join(path, k))
  }

  ghost predicate AllIn(kept: seq<Entry>, ds: seq<Entry>) {
    forall i | 0 <= i < |kept| :: kept[i].key in Keys(ds)
  }

  /** The surviving entries with the given values. */
  function WithValues(kept: seq<Entry>, values: seq<Tree>): seq<Entry>
    requires |kept| == |values|
  {
    seq(|kept|, i requires 0 <= i < |kept| => kept[i].(value := values[i]))
  }

  lemma {:induction false} SurvivingAllIn(es: seq<Entry>, ds: seq<Entry>)
    ensures AllIn(Surviving(es, Keys(ds)), ds)
  {
    var kept := Surviving(es, Keys(ds));
    forall i | 0 <= i < |kept| ensures kept[i].key in Keys(ds) {
      assert kept[i] in kept;
    }
  }

  lemma {:induction false} MappingMerges(b: Tree, d: Tree, f: Option<Field>, path: string, values: seq<Tree>)
    requires b.Mapping? && d.Mapping?
    requires var kept := Surviving(b.entries, Keys(d.entries));
             AllIn(kept, d.entries) && |values| == |kept|
             && forall i | 0 <= i < |kept| :: MergedEntry(kept, d.entries, f, path, i) == Ok(values[i])
    ensures var merged := WithValues(Surviving(b.entries, Keys(d.entries)), values);
            Merge(b, d, f, path) == Ok(Mapping(InsertAll(merged, NewKeys(merged, d.entries, f), d.entries, f), b.note))
  {
    var kept := Surviving(b.entries, Keys(d.entries));
    var rs := seq(|kept|, i requires 0 <= i < |kept| =>
      assert kept[i] in kept;
      var k := kept[i].key;
      WithValue(kept[i], Merge(kept[i].value, d.entries[LastIndexOf(d.entries, k)].value, ChildSchema(f, k),
        Join(path, k))));
    var merged := WithValues(kept, values);
    forall i | 0 <= i < |kept| ensures rs[i] == Ok(merged[i]) {
      assert MergedEntry(kept, d.entries, f, path, i) == Ok(values[i]);
    }
    assert Collect(rs).value == merged;
  }

  lemma {:induction false} MappingFails(b: Tree, d: Tree, f: Option<Field>, path: string, n: nat)
    requires b.Mapping? && d.Mapping?
    requires var kept := Surviving(b.entries, Keys(d.entries));
             n < |kept| && kept[n].key in Keys(d.entries) && MergedEntry(kept, d.entries, f, path, n).Err?
    ensures Merge(b, d, f, path).Err?
  {
    var kept := Surviving(b.entries, Keys(d.entries));
    var rs := seq(|kept|, i requires 0 <= i < |kept| =>
      assert kept[i] in kept;
      var k := kept[i].key;
      WithValue(kept[i], Merge(kept[i].value, d.entries[LastIndexOf(d.entries, k)].value, ChildSchema(f, k),
        Join(path, k))));
    assert rs[n].Err?;
    assert Collect(rs).Err?;
  }

  /** The results of all surviving entries. */
  ghost function MergedValues(kept: seq<Entry>, ds: seq<Entry>, f: Option<Field>, path: string):
      (rs: seq<Result<Tree, Code>>)
    requires AllIn(kept, ds)
  {
    seq(|kept|, i requires 0 <= i < |kept| => MergedEntry(kept, ds, f, path, i))
  }

  /** Merges every surviving child with its submitted value. */
  method MergeSurvivors(n: Node, d: Tree, f: Option<Field>, path: string) returns (ok: bool)
    requires n.Valid() && n.head.kind.IsMapping? && d.Mapping? && AllIn(n.value.entries, d.entries)
    modifies n.repr
    ensures n.Valid() && n.head == old(n.head) && fresh(n.repr - old(n.repr))
    ensures var kept := old(n.value.entries);
            |n.Values()| == |kept| && n.value == Mapping(WithValues(kept, n.Values()), n.head.note)
            && var rs := MergedValues(kept, d.entries, f, path);
               if ok then OkUpTo(rs, n.Values(), |rs|) else exists i :: 0 <= i < |rs| && rs[i].Err?
    decreases d, 2
  {
    ghost var kept, before := n.value.entries, n.Values();
    ghost var rs := MergedValues(kept, d.entries, f, path);
    n.EntriesAre();
    ok := true;
    var k := 0;
    while k < |n.kids| && ok
      invariant k <= |n.kids| == |kept| && n.Shaped() && n.head == old(n.head) && n.kids == old(n.kids)
      invariant fresh(n.repr - old(n.repr)) && (ok ==> n.Values()[k..] == before[k..])
      invariant if ok then OkUpTo(rs, n.Values(), k) else exists i :: 0 <= i < |rs| && rs[i].Err?
    {
      ghost var values := n.Values();
      assert n.Below(k) && values[k] == values[k..][0] == before[k] == kept[k].value;
      var key := n.head.keys[k].text;
      assert key == kept[k].key;
      ok := MergeKid(n, k, d.entries[LastIndexOf(d.entries, key)].value, ChildSchema(f, key), Join(path, key));
      assert rs[k] == MergedEntry(kept, d.entries, f, path, k);
      if ok {
        OkNext(rs, values, n.Values(), k);
      }
      k := k + 1;
    }
    n.Refresh();
    n.EntriesAre();
    EntriesWith(n.head.keys, before, n.Values());
  }

  lemma {:induction false} EntriesWith(keys: seq<Key>, before: seq<Tree>, after: seq<Tree>)
    requires |keys| == |before| == |after|
    ensures EntriesOf(keys, after) == WithValues(EntriesOf(keys, before), after)
  {
  }

  /** Where `insertChildBySchema` inserts a known key. */
  method InsertionPoint(keys: seq<Key>, ghost values: seq<Tree>, pos: nat, f: Option<Field>) returns (at: nat)
    requires |keys| == |values|
    ensures at <= |keys| && at == FirstLater(EntriesOf(keys, values), pos, f)
  {
    ghost var es := EntriesOf(keys, values);
    at := 0;
    while at < |keys| && !IsLater(keys[at].text, pos, f)
      invariant at <= |keys| && forall j | 0 <= j < at :: !IsLater(keys[j].text, pos, f)
    {
      at := at + 1;
    }
    assert forall j | 0 <= j < |keys| :: es[j].key == keys[j].text;
  }

  lemma {:induction false} EntriesInsert(keys: seq<Key>, values: seq<Tree>, at: nat, key: Key, v: Tree)
    requires |keys| == |values| && at <= |keys|
    ensures var es := EntriesOf(keys, values);
            EntriesOf(keys[..at] + [key] + keys[at..], values[..at] + [v] + values[at..])
            == es[..at] + [Entry(key.text, key.note, v)] + es[at..]
  {
  }

  /** A fresh child between the children of a node. */
  method InsertAt(n: Node, at: nat, key: Key, t: Tree)
    requires n.Valid() && n.head.kind.IsMapping? && at <= |n.kids|
    modifies n
    ensures n.Valid() && n.head.kind.IsMapping? && n.head.note == old(n.head.note) && fresh(n.repr - old(n.repr))
    ensures var es := old(n.value.entries);
            at <= |es| && n.value == Mapping(es[..at] + [Entry(key.text, key.note, t)] + es[at..], n.head.note)
  {
    n.EntriesAre();
    var c := Clone(t);
    var keys := n.head.keys;
    ghost var values, before := n.Values(), n.repr;
    EntriesInsert(keys, values, at, key, t);
    var kids := n.kids[..at] + [c] + n.kids[at..];
    forall i | 0 <= i < |kids|
      ensures kids[i].Valid() && kids[i] in kids[i].repr && n !in kids[i].repr
      ensures kids[i].repr <= n.repr + c.repr
    {
      if i != at {
        assert n.Below(if i < at then i else i - 1);
      }
    }
    SeparateInsert(n, at, c, kids);
    assert ValuesOf(kids) == values[..at] + [t] + values[at..];
    ghost var rs := ReprsOf(kids);
    UnionHolds(rs);
    assert Union(rs) <= before + c.repr;
    Adopt(n, n.head.(keys := keys[..at] + [key] + keys[at..]), kids);
  }

  lemma {:induction false} SeparateInsert(n: Node, at: nat, c: Node, kids: seq<Node>)
    requires n.Shaped() && at <= |n.kids| && kids == n.kids[..at] + [c] + n.kids[at..] && c.repr !! n.repr
    ensures forall i, j | 0 <= i < j < |kids| :: kids[i].repr !! kids[j].repr
  {
    forall i, j | 0 <= i < j < |kids| ensures kids[i].repr !! kids[j].repr {
      var a, b := if i < at then i else i - 1, if j < at then j else j - 1;
      if i != at {
        assert n.Below(a) && kids[i] == n.kids[a];
      }
      if j != at {
        assert n.Below(b) && kids[j] == n.kids[b];
      }
    }
  }

  /** `insertChildBySchema`. */
  method InsertKid(n: Node, key: string, t: Tree, f: Option<Field>)
    requires n.Valid() && n.head.kind.IsMapping?
    modifies n
    ensures n.Valid() && n.head.kind.IsMapping? && n.head.note == old(n.head.note) && fresh(n.repr - old(n.repr))
    ensures n.value == Mapping(Insert(old(n.value.entries), Entry(key, "", t), f), n.head.note)
  {
    n.EntriesAre();
    ghost var es := n.value.entries;
    var pos := SchemaPosition(f, key);
    var at := |n.kids|;
    if pos.Some? {
      at := InsertionPoint(n.head.keys, n.Values(), pos.value, f);
    } else {
      assert es[..at] + [Entry(key, "", t)] + es[at..] == es + [Entry(key, "", t)];
    }
    InsertAt(n, at, Key(key, ""), t);
  }

  lemma {:induction false} NewKeysByText(keys: seq<Key>, values: seq<Tree>, ds: seq<Entry>, f: Option<Field>)
    requires |keys| == |values|
    ensures NewKeys(EntriesOf(keys, values), ds, f) == OrderKeys(FirstKeys(ds, KeyTexts(keys)), f)
  {
    KeysOfEntries(keys, values);
  }

  /** Inserts the submitted keys that the node lacks, in schema order. */
  method InsertNew(n: Node, d: Tree, f: Option<Field>)
    requires n.Valid() && n.head.kind.IsMapping? && d.Mapping?
    modifies n
    ensures n.Valid() && n.head.kind.IsMapping? && n.head.note == old(n.head.note) && fresh(n.repr - old(n.repr))
    ensures var es := old(n.value.entries);
            n.value == Mapping(InsertAll(es, NewKeys(es, d.entries, f), d.entries, f), n.head.note)
  {
    n.EntriesAre();
    NewKeysByText(n.head.keys, n.Values(), d.entries, f);
    var ks := OrderKeys(FirstKeys(d.entries, KeyTexts(n.head.keys)), f);
    assert ks == NewKeys(n.value.entries, d.entries, f);
    InsertKeys(n, ks, d.entries, f);
  }

  lemma {:induction false} InsertAllStep(es: seq<Entry>, ks: seq<string>, k: nat, ds: seq<Entry>, f: Option<Field>)
    requires k < |ks| && forall key | key in ks :: key in Keys(ds)
    ensures ks[k] in Keys(ds)
    ensures InsertAll(es, ks[k..], ds, f)
            == InsertAll(Insert(es, Entry(ks[k], "", ds[LastIndexOf(ds, ks[k])].value), f), ks[k + 1..], ds, f)
  {
    assert ks[k] in ks && ks[k..][0] == ks[k] && ks[k..][1..] == ks[k + 1..];
  }

  method InsertKeys(n: Node, ks: seq<string>, ds: seq<Entry>, f: Option<Field>)
    requires n.Valid() && n.head.kind.IsMapping? && n.value.Mapping? && forall key | key in ks :: key in Keys(ds)
    modifies n
    ensures n.Valid() && n.head.kind.IsMapping? && n.head.note == old(n.head.note) && fresh(n.repr - old(n.repr))
    ensures n.value == Mapping(InsertAll(old(n.value.entries), ks, ds, f), n.head.note)
  {
    n.EntriesAre();
    ghost var es, note := n.value.entries, n.head.note;
    var k := 0;
    while k < |ks|
      invariant k <= |ks| && n.Valid() && n.head.kind.IsMapping? && n.head.note == note && fresh(n.repr - old(n.repr))
      invariant n.value.Mapping? && n.value.note == note
      invariant InsertAll(n.value.entries, ks[k..], ds, f) == InsertAll(es, ks, ds, f)
    {
      InsertAllStep(n.value.entries, ks, k, ds, f);
      InsertKid(n, ks[k], ds[LastIndexOf(ds, ks[k])].value, f);
      k := k + 1;
    }
  }

  /** What merging into `b` must report and leave. */
  ghost predicate Merged(b: Tree, d: Tree, f: Option<Field>, path: string, ok: bool, after: Tree) {
    var r := Merge(b, d, f, path);
    ok == r.Ok? && (ok ==> after == r.value)
  }

  /** `mergeMapping`. */
  method MergeMapping(n: Node, d: Tree, f: Option<Field>, path: string) returns (ok: bool)
    requires n.Valid() && n.head.kind.IsMapping? && d.Mapping?
    modifies n.repr
    ensures n.Valid() && fresh(n.repr - old(n.repr))
    ensures Merged(old(n.value), d, f, path, ok, n.value)
    decreases d, 3
  {
    n.EntriesAre();
    ghost var b := n.value;
    SurvivingAllIn(b.entries, d.entries);
    DropAbsent(n, Keys(d.entries));
    ghost var kept := n.value.entries;
    ok := MergeSurvivors(n, d, f, path);
    ghost var values := n.Values();
    if ok {
      InsertNew(n, d, f);
    }
    MappingDone(b, d, f, path, ok, kept, values, n.value);
  }

  lemma {:induction false} MappingDone(b: Tree, d: Tree, f: Option<Field>, path: string, ok: bool, kept: seq<Entry>,
                                       values: seq<Tree>, after: Tree)
    requires b.Mapping? && d.Mapping? && kept == Surviving(b.entries, Keys(d.entries)) && AllIn(kept, d.entries)
    requires |values| == |kept|
    requires var rs := MergedValues(kept, d.entries, f, path);
             if ok then OkUpTo(rs, values, |rs|) else exists i :: 0 <= i < |rs| && rs[i].Err?
    requires ok ==> var es := WithValues(kept, values);
                    after == Mapping(InsertAll(es, NewKeys(es, d.entries, f), d.entries, f), b.note)
    ensures Merged(b, d, f, path, ok, after)
  {
    var rs := MergedValues(kept, d.entries, f, path);
    if ok {
      forall i | 0 <= i < |kept| ensures MergedEntry(kept, d.entries, f, path, i) == Ok(values[i]) {
        assert rs[i] == Ok(values[i]);
      }
      MappingMerges(b, d, f, path, values);
    } else {
      var i :| 0 <= i < |rs| && rs[i].Err?;
      MappingFails(b, d, f, path, i);
    }
  }

  // ---- Sequences ----

  /** What merging makes of the `i`-th submitted item of a keyed list. */
  function MergedItem(items: seq<Tree>, ds: seq<Tree>, bids: seq<Option<Ident>>, dids: seq<Option<Ident>>,
                      f: Option<Field>, path: string, i: nat): Result<Tree, Code>
    requires i < |ds| == |dids| && dids[i].Some? && |bids| == |items|
  {
    match Find(bids, dids[i].value)
    case Some(j) => Merge(items[j], ds[i], ItemSchema(f), Items(path))
    case None => Ok(Rebuild(ds[i], ItemSchema(f)))
  }

  /** The identities of a keyed list permit the merge. */
  predicate Matchable(bids: seq<Option<Ident>>, dids: seq<Option<Ident>>) {
    !Repeats(bids) && !Unidentified(dids) && !Repeats(dids)
  }

  /** The results of all items. */
  function MergedItems(items: seq<Tree>, ds: seq<Tree>, bids: seq<Option<Ident>>, dids: seq<Option<Ident>>,
                       f: Option<Field>, path: string): (rs: seq<Result<Tree, Code>>)
    requires |ds| == |dids| && !Unidentified(dids) && |bids| == |items|
  {
    seq(|ds|, i requires 0 <= i < |ds| => MergedItem(items, ds, bids, dids, f, path, i))
  }

  lemma {:induction false} SequenceIs(b: Tree, d: Tree, f: Option<Field>, path: string)
    requires b.Sequence? && d.Sequence? && IdentityKeys(f) != []
    requires Matchable(Idents(b.items, IdentityKeys(f), path), Idents(d.items, IdentityKeys(f), path))
    ensures var bids, dids := Idents(b.items, IdentityKeys(f), path), Idents(d.items, IdentityKeys(f), path);
            var c := Collect(MergedItems(b.items, d.items, bids, dids, f, path));
            Merge(b, d, f, path) == if c.Ok? then Ok(Sequence(c.value, b.note)) else Err(c.error)
  {
    var items, ds := b.items, d.items;
    var bids, dids := Idents(items, IdentityKeys(f), path), Idents(ds, IdentityKeys(f), path);
    var rs := seq(|ds|, i requires 0 <= i < |ds| =>
      match Find(bids, dids[i].value)
      case Some(j) => Merge(items[j], ds[i], ItemSchema(f), Items(path))
      case None => Ok(Rebuild(ds[i], ItemSchema(f))));
    assert rs == MergedItems(items, ds, bids, dids, f, path);
  }

  lemma {:induction false} SequenceDone(b: Tree, d: Tree, f: Option<Field>, path: string, ok: bool, values: seq<Tree>,
                                        after: Tree)
    requires b.Sequence? && d.Sequence? && IdentityKeys(f) != []
    requires var bids, dids := Idents(b.items, IdentityKeys(f), path), Idents(d.items, IdentityKeys(f), path);
             Matchable(bids, dids)
             && var rs := MergedItems(b.items, d.items, bids, dids, f, path);
                if ok then |values| == |rs| && after == Sequence(values, b.note) && forall i | 0 <= i < |rs| ::
                  rs[i] == Ok(values[i])
                else exists i :: 0 <= i < |rs| && rs[i].Err?
    ensures Merged(b, d, f, path, ok, after)
  {
    SequenceIs(b, d, f, path);
    var rs := MergedItems(b.items, d.items, Idents(b.items, IdentityKeys(f), path),
      Idents(d.items, IdentityKeys(f), path), f, path);
    CollectIs(rs, ok, values);
  }

  lemma {:induction false} CollectIs(rs: seq<Result<Tree, Code>>, ok: bool, values: seq<Tree>)
    requires if ok then |values| == |rs| && forall i | 0 <= i < |rs| :: rs[i] == Ok(values[i])
             else exists i :: 0 <= i < |rs| && rs[i].Err?
    ensures Collect(rs).Ok? == ok && (ok ==> Collect(rs).value == values)
  {
  }

  lemma {:induction false} SequenceRefused(b: Tree, d: Tree, f: Option<Field>, path: string, after: Tree)
    requires b.Sequence? && d.Sequence? && IdentityKeys(f) != []
    requires !Matchable(Idents(b.items, IdentityKeys(f), path), Idents(d.items, IdentityKeys(f), path))
    ensures Merged(b, d, f, path, false, after)
  {
  }

  /** Two submitted items never match the same item of the base. */
  lemma {:induction false} MatchOnce(bids: seq<Option<Ident>>, dids: seq<Option<Ident>>, a: nat, i: nat)
    requires a < i < |dids| && !Repeats(dids) && dids[a].Some? && dids[i].Some?
    requires Find(bids, dids[i].value).Some?
    ensures Find(bids, dids[a].value) != Find(bids, dids[i].value)
  {
    assert bids[Find(bids, dids[i].value).value] == dids[i] != dids[a];
  }

  /** No item before `i` matched item `j` of the base. */
  ghost predicate Untouched(bids: seq<Option<Ident>>, dids: seq<Option<Ident>>, i: nat, j: nat)
    requires i <= |dids| && !Unidentified(dids)
  {
    forall a | 0 <= a < i :: Find(bids, dids[a].value) != Some(j)
  }

  /** The base items matched by the first `n` submitted items hold their merge results `rs`. */
  ghost predicate Settled(rs: seq<Result<Tree, Code>>, bids: seq<Option<Ident>>, dids: seq<Option<Ident>>,
                          values: seq<Tree>, n: nat)
    requires n <= |rs| == |dids| && !Unidentified(dids) && |bids| == |values|
  {
    forall a | 0 <= a < n && Find(bids, dids[a].value).Some? :: rs[a] == Ok(values[Find(bids, dids[a].value).value])
  }

  /** The base items that none of the first `n` submitted items matched are as they were. */
  ghost predicate RestKept(items: seq<Tree>, bids: seq<Option<Ident>>, dids: seq<Option<Ident>>, values: seq<Tree>,
                           n: nat)
    requires n <= |dids| && !Unidentified(dids) && |items| == |values|
  {
    forall j | 0 <= j < |items| && Untouched(bids, dids, n, j) :: values[j] == items[j]
  }

  lemma {:induction false} SettleNext(rs: seq<Result<Tree, Code>>, bids: seq<Option<Ident>>, dids: seq<Option<Ident>>,
                   before: seq<Tree>, after: seq<Tree>, n: nat)
    requires n < |rs| == |dids| && Matchable(bids, dids) && |bids| == |before| == |after|
    requires Settled(rs, bids, dids, before, n)
    requires var hit := Find(bids, dids[n].value);
             if hit.None? then after == before
             else after == before[hit.value := after[hit.value]] && rs[n] == Ok(after[hit.value])
    ensures Settled(rs, bids, dids, after, n + 1)
  {
    forall a | 0 <= a < n + 1 && Find(bids, dids[a].value).Some?
      ensures rs[a] == Ok(after[Find(bids, dids[a].value).value])
    {
      if a < n && Find(bids, dids[n].value).Some? {
        MatchOnce(bids, dids, a, n);
      }
    }
  }

  lemma {:induction false} RestNext(items: seq<Tree>, bids: seq<Option<Ident>>, dids: seq<Option<Ident>>,
                                    before: seq<Tree>, after: seq<Tree>, n: nat)
    requires n < |dids| && !Unidentified(dids) && |bids| == |items| == |before| == |after|
    requires RestKept(items, bids, dids, before, n)
    requires var hit := Find(bids, dids[n].value);
             if hit.None? then after == before else after == before[hit.value := after[hit.value]]
    ensures RestKept(items, bids, dids, after, n + 1)
  {
    forall j | 0 <= j < |items| && Untouched(bids, dids, n + 1, j) ensures after[j] == items[j] {
      assert Untouched(bids, dids, n, j) && Find(bids, dids[n].value) != Some(j);
    }
  }

  lemma {:induction false} NotYetTouched(bids: seq<Option<Ident>>, dids: seq<Option<Ident>>, n: nat)
    requires n < |dids| && Matchable(bids, dids) && Find(bids, dids[n].value).Some?
    ensures Untouched(bids, dids, n, Find(bids, dids[n].value).value)
  {
    forall a | 0 <= a < n ensures Find(bids, dids[a].value) != Find(bids, dids[n].value) {
      MatchOnce(bids, dids, a, n);
    }
  }

  /** Merges every base item that has a submitted counterpart. */
  method MergeMatched(n: Node, ds: seq<Tree>, bids: seq<Option<Ident>>, dids: seq<Option<Ident>>, f: Option<Field>,
                      path: string, ghost d: Tree)
    returns (ok: bool)
    requires n.Valid() && d.Sequence? && d.items == ds && |bids| == |n.kids| && |dids| == |ds| && Matchable(bids, dids)
    modifies n.repr
    ensures n.Shaped() && n.head == old(n.head) && n.kids == old(n.kids) && fresh(n.repr - old(n.repr))
    ensures var rs := MergedItems(old(n.Values()), ds, bids, dids, f, path);
            if ok then Settled(rs, bids, dids, n.Values(), |ds|) else exists i :: 0 <= i < |rs| && rs[i].Err?
    decreases d, 2
  {
    ghost var items := n.Values();
    ghost var rs := MergedItems(items, ds, bids, dids, f, path);
    ok := true;
    var i := 0;
    while i < |ds| && ok
      invariant i <= |ds| && n.Shaped() && n.head == old(n.head) && n.kids == old(n.kids) && fresh(n.repr - old(n.repr))
      invariant ok ==> Settled(rs, bids, dids, n.Values(), i) && RestKept(items, bids, dids, n.Values(), i)
      invariant !ok ==> exists a :: 0 <= a < |rs| && rs[a].Err?
    {
      ghost var before := n.Values();
      var hit := Find(bids, dids[i].value);
      if hit.Some? {
        NotYetTouched(bids, dids, i);
        assert n.Below(hit.value) && before[hit.value] == items[hit.value];
        ok := MergeKid(n, hit.value, ds[i], ItemSchema(f), Items(path));
        assert rs[i] == Merge(items[hit.value], ds[i], ItemSchema(f), Items(path));
      }
      if ok {
        SettleNext(rs, bids, dids, before, n.Values(), i);
        RestNext(items, bids, dids, before, n.Values(), i);
      }
      i := i + 1;
    }
  }

  /** The first picked nodes are as wanted and apart from each other. */
  ghost predicate PickedSoFar(n: Node, ds: seq<Tree>, bids: seq<Option<Ident>>, dids: seq<Option<Ident>>,
                              item: Option<Field>, nodes: seq<Node>)
    requires |bids| == |n.kids| && |nodes| <= |ds| == |dids| && Matchable(bids, dids)
    reads n, n.kids, nodes, set i, o | 0 <= i < |nodes| && o in nodes[i].repr :: o
  {
    (forall a | 0 <= a < |nodes| :: Picked1(n, nodes[a], Find(bids, dids[a].value))) &&
    (forall a | 0 <= a < |nodes| :: nodes[a].value == Wanted(n, ds[a], Find(bids, dids[a].value), item)) &&
    (forall a, b | 0 <= a < b < |nodes| :: nodes[a].repr !! nodes[b].repr)
  }

  lemma {:induction false} PickNext(n: Node, ds: seq<Tree>, bids: seq<Option<Ident>>, dids: seq<Option<Ident>>,
                                    item: Option<Field>, nodes: seq<Node>, c: Node)
    requires |bids| == |n.kids| && |nodes| < |ds| == |dids| && Matchable(bids, dids)
    requires PickedSoFar(n, ds, bids, dids, item, nodes)
    requires var hit := Find(bids, dids[|nodes|].value);
             Picked1(n, c, hit) && c.value == Wanted(n, ds[|nodes|], hit, item)
    requires forall a | 0 <= a < |nodes| :: nodes[a].repr !! c.repr
    ensures PickedSoFar(n, ds, bids, dids, item, nodes + [c])
  {
  }

  lemma {:induction false} PickedApart(n: Node, ds: seq<Tree>, bids: seq<Option<Ident>>, dids: seq<Option<Ident>>,
                                       item: Option<Field>, nodes: seq<Node>)
    requires |bids| == |n.kids| && |nodes| == |ds| == |dids| && Matchable(bids, dids)
    requires PickedSoFar(n, ds, bids, dids, item, nodes)
    ensures Apart(n, nodes)
  {
    forall a | 0 <= a < |nodes| ensures nodes[a].Valid() && nodes[a] in nodes[a].repr && n !in nodes[a].repr {
      assert Picked1(n, nodes[a], Find(bids, dids[a].value));
    }
  }

  /** The new content: merged base items and fresh copies of new ones, in submitted order. */
  method PickItems(n: Node, ds: seq<Tree>, bids: seq<Option<Ident>>, dids: seq<Option<Ident>>, item: Option<Field>)
    returns (nodes: seq<Node>)
    requires n.Shaped() && |bids| == |n.kids| && |dids| == |ds| && Matchable(bids, dids)
    ensures |nodes| == |ds| && Apart(n, nodes) && fresh(Union(ReprsOf(nodes)) - n.repr)
    ensures forall i | 0 <= i < |ds| :: nodes[i].value == Wanted(n, ds[i], Find(bids, dids[i].value), item)
  {
    nodes := [];
    for i := 0 to |ds|
      invariant |nodes| == i && PickedSoFar(n, ds, bids, dids, item, nodes)
      invariant forall a | 0 <= a < i :: fresh(nodes[a].repr - n.repr)
    {
      var c := PickOne(n, nodes, ds[i], bids, dids, item);
      PickNext(n, ds, bids, dids, item, nodes, c);
      nodes := nodes + [c];
    }
    PickedApart(n, ds, bids, dids, item, nodes);
    UnionHolds(ReprsOf(nodes));
  }

  method PickOne(n: Node, nodes: seq<Node>, d: Tree, bids: seq<Option<Ident>>, dids: seq<Option<Ident>>,
                 item: Option<Field>)
    returns (c: Node)
    requires n.Shaped() && |bids| == |n.kids| && |nodes| < |dids| && Matchable(bids, dids)
    requires forall a | 0 <= a < |nodes| :: Picked1(n, nodes[a], Find(bids, dids[a].value))
    ensures var hit := Find(bids, dids[|nodes|].value); Picked1(n, c, hit) && c.value == Wanted(n, d, hit, item)
    ensures fresh(c.repr - n.repr) && forall a | 0 <= a < |nodes| :: nodes[a].repr !! c.repr
  {
    var hit := Find(bids, dids[|nodes|].value);
    if hit.Some? {
      assert n.Below(hit.value);
      HitApart(n, nodes, bids, dids, |nodes|);
      c := n.kids[hit.value];
    } else {
      c := Clone(Rebuild(d, item));
    }
  }

  /** What a submitted item becomes: the merged child it matches, or a rebuilt copy. */
  ghost function Wanted(n: Node, d: Tree, hit: Option<nat>, item: Option<Field>): Tree
    requires hit.Some? ==> hit.value < |n.kids|
    reads n, n.kids
  {
    if hit.Some? then n.kids[hit.value].value else Rebuild(d, item)
  }

  /** A child that is matched now shares nothing with the nodes picked before. */
  lemma {:induction false} HitApart(n: Node, nodes: seq<Node>, bids: seq<Option<Ident>>, dids: seq<Option<Ident>>,
                                    i: nat)
    requires n.Shaped() && |bids| == |n.kids| && i < |dids| && |nodes| == i && Matchable(bids, dids)
    requires forall a | 0 <= a < i :: Picked1(n, nodes[a], Find(bids, dids[a].value))
    requires Find(bids, dids[i].value).Some?
    ensures forall a | 0 <= a < i :: nodes[a].repr !! n.kids[Find(bids, dids[i].value).value].repr
  {
    var j := Find(bids, dids[i].value).value;
    assert n.Below(j);
    forall a | 0 <= a < i ensures nodes[a].repr !! n.kids[j].repr {
      MatchOnce(bids, dids, a, i);
      assert Picked1(n, nodes[a], Find(bids, dids[a].value));
    }
  }

  /** A picked node: the matched child, or a tree of its own. */
  ghost predicate Picked1(n: Node, c: Node, hit: Option<nat>)
    reads n, c, c.repr
  {
    c.Valid() && c in c.repr && n !in c.repr
    && if hit.Some? then hit.value < |n.kids| && c == n.kids[hit.value] && c.repr <= n.repr else c.repr !! n.repr
  }

  /** `mergeSequence` on a list without identity: the submitted items replace the list. */
  method ReplaceItems(n: Node, d: Tree)
    requires n.Valid() && n.head.kind.IsSequence? && d.Sequence?
    modifies n
    ensures n.Valid() && fresh(n.repr - old(n.repr))
    ensures n.value == Sequence(d.items, n.head.note) && n.head == old(n.head)
  {
    var kids := CloneChildren(d);
    UnionHolds(ReprsOf(kids));
    Adopt(n, n.head, kids);
  }

  /** `mergeSequence` on a list whose items have identities. The base items are all merged before
      the copies of new items are made; the program interleaves the two. */
  method MergeKeyed(n: Node, d: Tree, f: Option<Field>, path: string) returns (ok: bool)
    requires n.Valid() && n.head.kind.IsSequence? && d.Sequence? && IdentityKeys(f) != []
    modifies n.repr
    ensures n.Valid() && fresh(n.repr - old(n.repr))
    ensures Merged(old(n.value), d, f, path, ok, n.value)
    decreases d, 3
  {
    ghost var b, items := n.value, n.Values();
    n.ItemsAre();
    var bids := IdentsOf(n, IdentityKeys(f), path);
    var dids := Idents(d.items, IdentityKeys(f), path);
    if !Matchable(bids, dids) {
      SequenceRefused(b, d, f, path, b);
      return false;
    }
    ok := MergeMatched(n, d.items, bids, dids, f, path, d);
    if ok {
      TakeItems(n, d.items, bids, dids, f, path, items);
    } else {
      n.Refresh();
    }
    SequenceDone(b, d, f, path, ok, if ok then n.value.items else [], n.value);
  }

  /** The new content of a keyed list whose base items have been merged. */
  method TakeItems(n: Node, ds: seq<Tree>, bids: seq<Option<Ident>>, dids: seq<Option<Ident>>, f: Option<Field>,
                   ghost path: string, ghost items: seq<Tree>)
    requires n.Shaped() && n.head.kind.IsSequence? && |items| == |bids| == |n.kids| && |dids| == |ds| &&
             Matchable(bids, dids)
    requires Settled(MergedItems(items, ds, bids, dids, f, path), bids, dids, n.Values(), |ds|)
    modifies n
    ensures n.Valid() && fresh(n.repr - old(n.repr)) && n.head == old(n.head)
    ensures n.value.Sequence? && n.value == Sequence(n.value.items, n.head.note) && |n.value.items| == |ds|
    ensures forall i | 0 <= i < |ds| :: MergedItems(items, ds, bids, dids, f, path)[i] == Ok(n.value.items[i])
  {
    var nodes := PickItems(n, ds, bids, dids, ItemSchema(f));
    ghost var values := ValuesOf(nodes);
    ghost var rs := MergedItems(items, ds, bids, dids, f, path);
    forall i | 0 <= i < |ds| ensures rs[i] == Ok(values[i]) {
      assert rs[i] == MergedItem(items, ds, bids, dids, f, path, i);
      assert values[i] == Wanted(n, ds[i], Find(bids, dids[i].value), ItemSchema(f));
    }
    Adopt(n, n.head, nodes);
  }

  /** Identities of a list node's items. */
  method IdentsOf(n: Node, keys: seq<string>, path: string) returns (ids: seq<Option<Ident>>)
    requires n.Valid() && n.head.kind.IsSequence?
    ensures ids == Idents(n.Values(), keys, path)
  {
    n.ItemsAre();
    var t := Snapshot(n);
    ids := Idents(t.items, keys, path);
  }

  /** `mergeNode`: on success the node stands for the merged tree; kept nodes are the same objects. */
  method MergeNode(n: Node, d: Tree, f: Option<Field>, path: string) returns (ok: bool)
    requires n.Valid()
    modifies n.repr
    ensures n.Valid() && n in n.repr && fresh(n.repr - old(n.repr))
    ensures var r := Merge(old(n.value), d, f, path); ok == r.Ok? && (ok ==> n.value == r.value)
    decreases d, 4
  {
    n.ValueKind();
    ok := true;
    if n.head.kind.IsScalar? && d.Scalar? {
      if n.head.text != d.text {
        n.head := n.head.(text := d.text, tag := d.tag);
        n.value := Assemble(n.head, []);
      }
    } else if n.head.kind.IsMapping? && d.Mapping? {
      ok := MergeMapping(n, d, f, path);
    } else if n.head.kind.IsSequence? && d.Sequence? {
      if IdentityKeys(f) == [] {
        n.ItemsAre();
        ReplaceItems(n, d);
      } else {
        ok := MergeKeyed(n, d, f, path);
      }
    } else {
      Become(n, d);
    }
  }
}
