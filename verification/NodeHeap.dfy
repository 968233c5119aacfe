/** Configuration nodes as the program has them: objects changed in place. `value` is the tree that
    a node and everything below it stand for. */
module NodeHeap {
  import opened Trees
  import opened Schema

  datatype Kind = IsScalar | IsMapping | IsSequence

  /** Text and comments of a mapping key. */
  datatype Key = Key(text: string, note: string)

  /** A node's own fields. */
  datatype Head = Head(kind: Kind, tag: string, text: string, note: string, keys: seq<Key>)

  /** Mappings have one key a child, scalars no child. */
  predicate Fits(h: Head, n: nat) {
    (h.kind.IsMapping? ==> |h.keys| == n) && (h.kind.IsScalar? ==> n == 0)
  }

  /** The entries of a mapping node. */
  function EntriesOf(keys: seq<Key>, values: seq<Tree>): seq<Entry>
    requires |keys| == |values|
  {
    seq(|keys|, i requires 0 <= i < |keys| => Entry(keys[i].text, keys[i].note, values[i]))
  }

  /** The tree of a node with the given children. */
  function Assemble(h: Head, kids: seq<Tree>): Tree
    requires Fits(h, |kids|)
  {
    match h.kind
    case IsScalar => Scalar(h.tag, h.text, h.note)
    case IsMapping => Mapping(EntriesOf(h.keys, kids), h.note)
    case IsSequence => Sequence(kids, h.note)
  }

  /** The wildcard path of child `i`. */
  function KidPath(h: Head, path: string, i: nat): string
    requires h.kind.IsMapping? ==> i < |h.keys|
  {
    if h.kind.IsMapping? then Join(path, h.keys[i].text) else Items(path)
  }

  class Node {
    var head: Head
    var kids: seq<Node>
    ghost var repr: set<Node>
    ghost var value: Tree

    /** Everything that makes this a tree, but for its own `value`. */
    ghost predicate Shaped()
      reads this, repr
      decreases repr, 1
    {
      this in repr && Fits(head, |kids|) &&
      (forall i | 0 <= i < |kids| :: kids[i] in repr) &&
      (forall i | 0 <= i < |kids| :: Below(i)) &&
      (forall i, j | 0 <= i < j < |kids| :: kids[i].repr !! kids[j].repr)
    }

    ghost predicate Below(i: nat)
      requires i < |kids| && this in repr && kids[i] in repr
      reads this, repr
      decreases repr, 0
    {
      kids[i].repr < repr && this !in kids[i].repr && kids[i] in kids[i].repr && kids[i].Valid()
    }

    ghost function Values(): (r: seq<Tree>)
      reads this, kids
    {
      ValuesOf(kids)
    }

    ghost predicate Valid()
      reads this, repr
      decreases repr, 2
    {
      Shaped() && value == Assemble(head, Values())
    }

    lemma {:induction false} EntriesAre()
      requires Valid() && head.kind.IsMapping?
      ensures |head.keys| == |kids| && value == Mapping(EntriesOf(head.keys, Values()), head.note)
    {
    }

    lemma {:induction false} ItemsAre()
      requires Valid() && head.kind.IsSequence?
      ensures value == Sequence(Values(), head.note)
    {
    }

    lemma {:induction false} ValueKind()
      requires Valid()
      ensures (value.Scalar? <==> head.kind.IsScalar?) && (value.Mapping? <==> head.kind.IsMapping?)
    {
    }

    ghost function Reprs(): (r: seq<set<Node>>)
      reads this, kids
    {
      ReprsOf(kids)
    }

    /** Brings `value` up to date after changes below. */
    ghost method Refresh()
      requires Shaped()
      modifies this`value
      ensures Valid() && value == Assemble(head, old(Values()))
    {
      ghost var v := Assemble(head, Values());
      forall i | 0 <= i < |kids| ensures Below(i) {}
      value := v;
      forall i | 0 <= i < |kids| ensures Below(i) && kids[i].value == old(kids[i].value) {
        assert old(Below(i));
      }
      assert Values() == old(Values());
    }

    /** A new node without children. */
    constructor ()
      ensures repr == {this}
    {
      head, kids := Head(IsSequence, "", "", "", []), [];
      repr, value := {this}, Sequence([], "");
    }

    lemma {:induction false} ShapedOver()
      requires Fits(head, |kids|) && this in repr
      requires forall i | 0 <= i < |kids| ::
        kids[i].Valid() && kids[i] in kids[i].repr && this !in kids[i].repr && kids[i].repr <= repr
      requires forall i, j | 0 <= i < j < |kids| :: kids[i].repr !! kids[j].repr
      ensures Shaped()
    {
      forall i | 0 <= i < |kids| ensures kids[i] in repr && Below(i) {}
    }
  }

  ghost function ValuesOf(kids: seq<Node>): (r: seq<Tree>)
    reads kids
    ensures |r| == |kids|
  {
    seq(|kids|, i requires 0 <= i < |kids| reads kids => kids[i].value)
  }

  ghost function ReprsOf(kids: seq<Node>): (r: seq<set<Node>>)
    reads kids
    ensures |r| == |kids|
  {
    seq(|kids|, i requires 0 <= i < |kids| reads kids => kids[i].repr)
  }

  ghost function Union(sets: seq<set<Node>>): set<Node> {
    if sets == [] then {} else sets[0] + Union(sets[1..])
  }

  lemma {:induction false} UnionHolds(sets: seq<set<Node>>)
    ensures forall i | 0 <= i < |sets| :: sets[i] <= Union(sets)
    ensures forall o | o in Union(sets) :: exists i :: 0 <= i < |sets| && o in sets[i]
  {
    if sets != [] {
      UnionHolds(sets[1..]);
      forall i | 0 <= i < |sets| ensures sets[i] <= Union(sets) {
        if i > 0 {
          assert sets[i] == sets[1..][i - 1];
        }
      }
      forall o | o in Union(sets) ensures exists i :: 0 <= i < |sets| && o in sets[i] {
        if o !in sets[0] {
          var j :| 0 <= j < |sets[1..]| && o in sets[1..][j];
          assert o in sets[j + 1];
        }
      }
    }
  }

  /** The value of a node, read off the objects. */
  method Snapshot(n: Node) returns (t: Tree)
    requires n.Valid()
    ensures t == n.value
    decreases n.repr
  {
    var ts := [];
    for i := 0 to |n.kids|
      invariant |ts| == i && forall j | 0 <= j < i :: ts[j] == n.kids[j].value
    {
      assert n.Below(i);
      var k := Snapshot(n.kids[i]);
      ts := ts + [k];
    }
    assert ts == n.Values();
    t := Assemble(n.head, ts);
  }
}
