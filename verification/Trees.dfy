/** Alias-free YAML trees: scalars with tag and text, ordered mappings, sequences. Every node
    (and every mapping key) carries its comments as one `note`. */
module Trees {
  import opened Wrappers

  datatype Tree =
    | Scalar(tag: string, text: string, note: string)
    | Mapping(entries: seq<Entry>, note: string)
    | Sequence(items: seq<Tree>, note: string)

  datatype Entry = Entry(key: string, keyNote: string, value: Tree)

  /** What a document means to the program that decodes it: key order and comments are gone. */
  datatype Value =
    | Atom(tag: string, text: string)
    | Dict(fields: map<string, Value>)
    | List(elems: seq<Value>)

  function Keys(es: seq<Entry>): set<string> {
    set i | 0 <= i < |es| :: es[i].key
  }

  ghost predicate Distinct(es: seq<Entry>) {
    forall i, j | 0 <= i < j < |es| :: es[i].key != es[j].key
  }

  /** Position of the first entry with this key (`childKey`). */
  function IndexOf(es: seq<Entry>, key: string): (i: nat)
    requires key in Keys(es)
    ensures i < |es| && es[i].key == key
    ensures forall j | 0 <= j < i :: es[j].key != key
  {
    if es[0].key == key then 0 else 1 + IndexOf(es[1..], key)
  }

  /** Position of the last entry with this key (a Go map filled in entry order). */
  function LastIndexOf(es: seq<Entry>, key: string): (i: nat)
    requires key in Keys(es)
    ensures i < |es| && es[i].key == key
    ensures forall j | i < j < |es| :: es[j].key != key
  {
    if es[|es| - 1].key == key then |es| - 1 else LastIndexOf(es[..|es| - 1], key)
  }

  /** The value node under `key`, when `t` is a mapping that has it. */
  function Child(t: Tree, key: string): Option<Tree> {
    if t.Mapping? && key in Keys(t.entries) then Some(t.entries[IndexOf(t.entries, key)].value) else None
  }

  function Abs(t: Tree): Value {
    match t
    case Scalar(tag, text, _) => Atom(tag, text)
    case Mapping(es, _) => Dict(map k | k in Keys(es) :: Abs(es[IndexOf(es, k)].value))
    case Sequence(items, _) => List(seq(|items|, i requires 0 <= i < |items| => Abs(items[i])))
  }

  /** No mapping anywhere in the tree repeats a key. */
  ghost predicate KeysDistinct(t: Tree) {
    match t
    case Scalar(_, _, _) => true
    case Mapping(es, _) => Distinct(es) && forall i | 0 <= i < |es| :: KeysDistinct(es[i].value)
    case Sequence(items, _) => forall i | 0 <= i < |items| :: KeysDistinct(items[i])
  }

  function Children(t: Tree): seq<Tree> {
    match t
    case Scalar(_, _, _) => []
    case Mapping(es, _) => seq(|es|, i requires 0 <= i < |es| => es[i].value)
    case Sequence(items, _) => items
  }

  /** The node reached by following child numbers from the root. */
  function At(t: Tree, ps: seq<nat>): Option<Tree>
    decreases |ps|
  {
    if ps == [] then Some(t)
    else if ps[0] < |Children(t)| then At(Children(t)[ps[0]], ps[1..])
    else None
  }

  lemma {:induction false} FieldAt(es: seq<Entry>, i: nat)
    requires Distinct(es) && i < |es|
    ensures es[i].key in Keys(es)
    ensures IndexOf(es, es[i].key) == LastIndexOf(es, es[i].key) == i
  {
  }

  lemma {:induction false} SameFirstLast(es: seq<Entry>, key: string)
    requires Distinct(es) && key in Keys(es)
    ensures IndexOf(es, key) == LastIndexOf(es, key)
  {
  }

  /** Equal mappings as values: same keys, and equal values under each key. */
  lemma {:induction false} DictsEqual(es: seq<Entry>, fs: seq<Entry>, n: string, m: string)
    ensures Abs(Mapping(es, n)) == Abs(Mapping(fs, m)) <==>
            Keys(es) == Keys(fs) &&
            forall k | k in Keys(es) :: Abs(es[IndexOf(es, k)].value) == Abs(fs[IndexOf(fs, k)].value)
  {
    var d, e := Abs(Mapping(es, n)), Abs(Mapping(fs, m));
    assert d.fields.Keys == Keys(es) && e.fields.Keys == Keys(fs);
    if d == e {
      forall k | k in Keys(es) ensures Abs(es[IndexOf(es, k)].value) == Abs(fs[IndexOf(fs, k)].value) {
        assert d.fields[k] == e.fields[k];
      }
    }
  }

  lemma {:induction false} ListsEqual(xs: seq<Tree>, ys: seq<Tree>, n: string, m: string)
    ensures Abs(Sequence(xs, n)) == Abs(Sequence(ys, m)) <==>
            |xs| == |ys| && forall i | 0 <= i < |xs| :: Abs(xs[i]) == Abs(ys[i])
  {
    var d, e := Abs(Sequence(xs, n)), Abs(Sequence(ys, m));
    if d == e {
      forall i | 0 <= i < |xs| ensures Abs(xs[i]) == Abs(ys[i]) {
        assert d.elems[i] == e.elems[i];
      }
    }
  }
}
