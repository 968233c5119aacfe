/** Restoring secrets as the program does it: the candidate's nodes are changed in place, the base is
    only read. */
module RestoreInPlace {
  import opened Wrappers
  import opened Trees
  import opened Schema
  import opened Merging
  import opened Restoring
  import opened NodeHeap

  function KidSchema(h: Head, f: Option<Field>, i: nat): Option<Field>
    requires h.kind.IsMapping? ==> i < |h.keys|
  {
    if h.kind.IsMapping? then ChildSchema(f, h.keys[i].text) else ItemSchema(f)
  }

  /** The walk on the `i`-th child; a child that is not walked stays. */
  function ChildResult(secret: SecretPaths, cur: Option<Tree>, cand: Tree, f: Option<Field>, wild: string,
                       i: nat): Result<Tree, Code>
    requires i < |Children(cand)|
  {
    if Walked(cand, f, wild, i)
    then RestoreWalk(secret, Match(cur, cand, f, wild, i), Children(cand)[i], BelowSchema(cand, f, i),
      ChildPath(cand, wild, i))
    else Ok(Children(cand)[i])
  }

  /** `restoreSecretsWalk`: the first misplaced sentinel in walking order, or the restored tree. */
  method RestoreNode(n: Node, secret: SecretPaths, cur: Option<Tree>, f: Option<Field>, wild: string)
    returns (err: Option<Code>)
    requires n.Valid()
    modifies n.repr
    ensures n.Valid() && n.repr == old(n.repr)
    ensures var r := RestoreWalk(secret, cur, old(n.value), f, wild);
            if err.None? then r == Ok(n.value) else r == Err(err.value)
    decreases n.repr, 1
  {
    n.ValueKind();
    if n.head.kind.IsScalar? {
      err := RestoreScalar(n, secret, cur, f, wild);
    } else {
      err := RestoreKids(n, secret, cur, f, wild);
    }
  }

  method RestoreScalar(n: Node, secret: SecretPaths, cur: Option<Tree>, ghost f: Option<Field>, wild: string)
    returns (err: Option<Code>)
    requires n.Valid() && n.head.kind.IsScalar?
    modifies n
    ensures n.Valid() && n.repr == old(n.repr)
    ensures var r := RestoreWalk(secret, cur, old(n.value), f, wild);
            if err.None? then r == Ok(n.value) else r == Err(err.value)
  {
    if n.head.text == KEEP {
      if !Keepable(secret, cur, wild) {
        return Some(SentinelMisuse);
      }
      n.head := n.head.(text := cur.value.text, tag := cur.value.tag);
      n.value := Assemble(n.head, []);
    }
    return None;
  }

  method RestoreKids(n: Node, secret: SecretPaths, cur: Option<Tree>, f: Option<Field>, wild: string)
    returns (err: Option<Code>)
    requires n.Valid() && !n.head.kind.IsScalar?
    modifies n.repr
    ensures n.Valid() && n.repr == old(n.repr)
    ensures var r := RestoreWalk(secret, cur, old(n.value), f, wild);
            if err.None? then r == Ok(n.value) else r == Err(err.value)
    decreases n.repr, 0, 3
  {
    var cand := Snapshot(n);
    ghost var before := n.Values();
    ChildrenAssembled(n.head, before);
    var k;
    err, k := WalkKids(n, secret, cur, cand, f, wild);
    if err.None? {
      KidsRestored(secret, cur, n.head, before, n.Values(), f, wild);
    } else {
      KidFailed(secret, cur, cand, f, wild, err.value, k);
    }
    n.Refresh();
  }

  /** The loop over the children; `k` of them were looked at. */
  method WalkKids(n: Node, secret: SecretPaths, cur: Option<Tree>, cand: Tree, f: Option<Field>, wild: string)
    returns (err: Option<Code>, k: nat)
    requires n.Shaped() && !n.head.kind.IsScalar? && cand == Assemble(n.head, n.Values()) &&
             Children(cand) == n.Values()
    modifies n.repr
    ensures unchanged(n) && n.Shaped()
    ensures var rs := ChildResults(secret, cur, cand, f, wild);
            if err.None? then OkUpTo(rs, n.Values(), |rs|) else FailedAt(rs, k, err.value)
    decreases n.repr, 0, 2
  {
    ghost var before := n.Values();
    ghost var rs := ChildResults(secret, cur, cand, f, wild);
    err, k := None, 0;
    while k < |n.kids| && err.None?
      invariant k <= |n.kids| == |rs| && unchanged(n) && n.Shaped()
      invariant err.None? ==> n.Values()[k..] == before[k..] && OkUpTo(rs, n.Values(), k)
      invariant err.Some? ==> FailedAt(rs, k, err.value)
    {
      ghost var values := n.Values();
      assert n.Below(k) && n.kids[k].value == values[k..][0] == before[k];
      err := WalkKid(n, k, secret, cur, cand, f, wild, before);
      if err.None? {
        OkNext(rs, values, n.Values(), k);
      }
      k := k + 1;
    }
  }

  /** One turn of the loop: the child is restored if the walk looks at it. */
  method WalkKid(n: Node, k: nat, secret: SecretPaths, cur: Option<Tree>, cand: Tree, f: Option<Field>, wild: string,
                 ghost before: seq<Tree>)
    returns (err: Option<Code>)
    requires n.Shaped() && k < |n.kids| == |before| && n.Below(k) && n.kids[k].value == before[k]
    requires !n.head.kind.IsScalar? && cand == Assemble(n.head, before) && Children(cand) == before
    modifies n.kids[k].repr
    ensures unchanged(n) && n.Shaped() && n.Values() == old(n.Values())[k := n.kids[k].value]
    ensures ChildResults(secret, cur, cand, f, wild)[k] == if err.None? then Ok(n.kids[k].value) else Err(err.value)
    decreases n.repr, 0, 1
  {
    KidAssembled(n.head, before, k, f, wild);
    err := None;
    if Walked(cand, f, wild, k) {
      err := RestoreKid(n, k, secret, Match(cur, cand, f, wild, k), KidSchema(n.head, f, k), KidPath(n.head, wild, k));
    } else {
      assert n.Values() == n.Values()[k := n.kids[k].value];
    }
  }

  /** The results on all children. */
  ghost function ChildResults(secret: SecretPaths, cur: Option<Tree>, cand: Tree, f: Option<Field>,
                              wild: string): (rs: seq<Result<Tree, Code>>)
    ensures |rs| == |Children(cand)|
  {
    seq(|Children(cand)|, i requires 0 <= i < |Children(cand)| => ChildResult(secret, cur, cand, f, wild, i))
  }

  /** The last of the first `k` results is the first error. */
  ghost predicate FailedAt(rs: seq<Result<Tree, Code>>, k: nat, c: Code) {
    0 < k <= |rs| && rs[k - 1] == Err(c) && forall i | 0 <= i < k - 1 :: rs[i].Ok?
  }

  lemma {:induction false} KidsRestored(secret: SecretPaths, cur: Option<Tree>, h: Head, before: seq<Tree>,
                                        after: seq<Tree>, f: Option<Field>, wild: string)
    requires |before| == |after| && Fits(h, |before|) && !h.kind.IsScalar? && Children(Assemble(h, before)) == before
    requires OkUpTo(ChildResults(secret, cur, Assemble(h, before), f, wild), after, |after|)
    ensures RestoreWalk(secret, cur, Assemble(h, before), f, wild) == Ok(Assemble(h, after))
  {
    DoneByResults(secret, cur, Assemble(h, before), f, wild, after);
    RestoreAssembled(secret, cur, h, before, after, f, wild);
  }

  lemma {:induction false} DoneByResults(secret: SecretPaths, cur: Option<Tree>, cand: Tree, f: Option<Field>,
                                         wild: string, after: seq<Tree>)
    requires |after| == |Children(cand)| && OkUpTo(ChildResults(secret, cur, cand, f, wild), after, |after|)
    ensures Done(secret, cur, cand, f, wild, after)
  {
    var rs := ChildResults(secret, cur, cand, f, wild);
    forall i | 0 <= i < |after| ensures ChildResult(secret, cur, cand, f, wild, i) == Ok(after[i]) {
      assert rs[i] == Ok(after[i]);
    }
  }

  lemma {:induction false} KidFailed(secret: SecretPaths, cur: Option<Tree>, cand: Tree, f: Option<Field>,
                                     wild: string, c: Code, k: nat)
    requires FailedAt(ChildResults(secret, cur, cand, f, wild), k, c)
    ensures RestoreWalk(secret, cur, cand, f, wild) == Err(c)
  {
    OthersOk(secret, cur, cand, f, wild, c, k);
    FailsAt(secret, cur, cand, f, wild, k - 1, c);
  }

  lemma {:induction false} OthersOk(secret: SecretPaths, cur: Option<Tree>, cand: Tree, f: Option<Field>,
                                    wild: string, c: Code, k: nat)
    requires FailedAt(ChildResults(secret, cur, cand, f, wild), k, c)
    ensures 0 < k <= |Children(cand)| && ChildResult(secret, cur, cand, f, wild, k - 1) == Err(c)
    ensures forall i | 0 <= i < k - 1 :: ChildResult(secret, cur, cand, f, wild, i).Ok?
  {
    var rs := ChildResults(secret, cur, cand, f, wild);
    assert rs[k - 1] == Err(c);
    forall i | 0 <= i < k - 1 ensures ChildResult(secret, cur, cand, f, wild, i).Ok? {
      assert rs[i].Ok?;
    }
  }

  /** The children of the candidate were restored to `after`. */
  ghost predicate Done(secret: SecretPaths, cur: Option<Tree>, cand: Tree, f: Option<Field>, wild: string,
                       after: seq<Tree>)
    requires |after| == |Children(cand)|
  {
    forall i | 0 <= i < |after| :: ChildResult(secret, cur, cand, f, wild, i) == Ok(after[i])
  }

  /** The walk on one child; the node and its other children stay. */
  method RestoreKid(n: Node, k: nat, secret: SecretPaths, cur: Option<Tree>, f: Option<Field>, wild: string)
    returns (err: Option<Code>)
    requires k < |n.kids| && n.Shaped() && n.Below(k)
    modifies n.kids[k].repr
    ensures unchanged(n) && n.Shaped()
    ensures n.Values() == old(n.Values())[k := n.kids[k].value]
    ensures var r := RestoreWalk(secret, cur, old(n.kids[k].value), f, wild);
            if err.None? then r == Ok(n.kids[k].value) else r == Err(err.value)
    decreases n.repr, 0, 0
  {
    ghost var reprs := n.Reprs();
    label Before:
    err := RestoreNode(n.kids[k], secret, cur, f, wild);
    forall i | 0 <= i < |n.kids| && i != k
      ensures n.kids[i].repr == reprs[i] && n.kids[i].value == old@Before(n.kids[i].value)
      ensures n.Below(i)
    {
      assert old@Before(n.Below(i));
      assert reprs[i] !! reprs[k];
    }
    assert n.Below(k) && n.Reprs() == reprs;
  }

  lemma {:induction false} ChildrenAssembled(h: Head, kids: seq<Tree>)
    requires Fits(h, |kids|) && !h.kind.IsScalar?
    ensures Children(Assemble(h, kids)) == kids
  {
  }

  lemma {:induction false} KidAssembled(h: Head, kids: seq<Tree>, i: nat, f: Option<Field>, wild: string)
    requires Fits(h, |kids|) && !h.kind.IsScalar? && i < |kids|
    ensures var t := Assemble(h, kids);
            Children(t) == kids && BelowSchema(t, f, i) == KidSchema(h, f, i) &&
              ChildPath(t, wild, i) == KidPath(h, wild, i)
  {
  }

  lemma {:induction false} RestoreOk(secret: SecretPaths, cur: Option<Tree>, cand: Tree, after: seq<Tree>,
                                     f: Option<Field>, wild: string)
    requires !cand.Scalar? && |after| == |Children(cand)| && Done(secret, cur, cand, f, wild, after)
    ensures RestoreWalk(secret, cur, cand, f, wild).Ok?
  {
    RestoreOkBelow(secret, cur, cand, f, wild);
    forall i | 0 <= i < |after| && Walked(cand, f, wild, i)
      ensures RestoreWalk(secret, Match(cur, cand, f, wild, i), Children(cand)[i],
                          BelowSchema(cand, f, i), ChildPath(cand, wild, i)).Ok?
    {
      assert ChildResult(secret, cur, cand, f, wild, i).Ok?;
    }
  }

  lemma {:induction false} RestoreChildren(secret: SecretPaths, cur: Option<Tree>, cand: Tree, after: seq<Tree>,
                                           f: Option<Field>, wild: string)
    requires |after| == |Children(cand)| && Done(secret, cur, cand, f, wild, after)
    requires RestoreWalk(secret, cur, cand, f, wild).Ok?
    ensures Children(RestoreWalk(secret, cur, cand, f, wild).value) == after
  {
    var r := RestoreWalk(secret, cur, cand, f, wild).value;
    forall i | 0 <= i < |after| ensures |Children(r)| == |after| && Children(r)[i] == after[i] {
      RestoreChild(secret, cur, cand, f, wild, i);
      assert ChildResult(secret, cur, cand, f, wild, i) == Ok(after[i]);
    }
  }

  lemma {:induction false} RestoreAssembled(secret: SecretPaths, cur: Option<Tree>, h: Head, before: seq<Tree>,
                                            after: seq<Tree>, f: Option<Field>, wild: string)
    requires |before| == |after| && Fits(h, |before|) && !h.kind.IsScalar?
    requires Children(Assemble(h, before)) == before
    requires Done(secret, cur, Assemble(h, before), f, wild, after)
    ensures RestoreWalk(secret, cur, Assemble(h, before), f, wild) == Ok(Assemble(h, after))
  {
    RestoreOk(secret, cur, Assemble(h, before), after, f, wild);
    if |before| > 0 {
      RestoreChildren(secret, cur, Assemble(h, before), after, f, wild);
    }
    SameHead(secret, cur, h, before, f, wild);
  }

  lemma {:induction false} SameHead(secret: SecretPaths, cur: Option<Tree>, h: Head, before: seq<Tree>,
                                    f: Option<Field>, wild: string)
    requires Fits(h, |before|) && !h.kind.IsScalar?
    requires RestoreWalk(secret, cur, Assemble(h, before), f, wild).Ok?
    ensures var r := RestoreWalk(secret, cur, Assemble(h, before), f, wild).value;
            Fits(h, |Children(r)|) && r == Assemble(h, Children(r))
  {
    var r := RestoreWalk(secret, cur, Assemble(h, before), f, wild).value;
    if h.kind.IsMapping? {
      assert r.entries == Assemble(h, Children(r)).entries;
    }
  }

  lemma {:induction false} CollectFirst<T, E>(rs: seq<Result<T, E>>, n: nat)
    requires n < |rs| && rs[n].Err? && forall i | 0 <= i < n :: rs[i].Ok?
    ensures Collect(rs) == Err(rs[n].error)
  {
    if n > 0 {
      CollectFirst(rs[1..], n - 1);
    }
  }

  /** The first child that fails decides the error. */
  lemma {:induction false} FailsAt(secret: SecretPaths, cur: Option<Tree>, cand: Tree, f: Option<Field>, wild: string,
                                   n: nat, c: Code)
    requires n < |Children(cand)| && ChildResult(secret, cur, cand, f, wild, n) == Err(c)
    requires forall i | 0 <= i < n :: ChildResult(secret, cur, cand, f, wild, i).Ok?
    ensures RestoreWalk(secret, cur, cand, f, wild) == Err(c)
  {
    match cand
    case Scalar(_, _, _) =>
    case Mapping(es, note) =>
      var rs := seq(|es|, i requires 0 <= i < |es| =>
        WithValue(es[i], RestoreWalk(secret, Match(cur, cand, f, wild, i), es[i].value,
                                     ChildSchema(f, es[i].key), Join(wild, es[i].key))));
      forall i | 0 <= i <= n ensures rs[i].Ok? == ChildResult(secret, cur, cand, f, wild, i).Ok? {}
      CollectFirst(rs, n);
    case Sequence(items, note) =>
      var rs := seq(|items|, i requires 0 <= i < |items| =>
        if Walked(cand, f, wild, i)
        then RestoreWalk(secret, Match(cur, cand, f, wild, i), items[i], ItemSchema(f), Items(wild))
        else Ok(items[i]));
      forall i | 0 <= i <= n ensures rs[i] == ChildResult(secret, cur, cand, f, wild, i) {}
      CollectFirst(rs, n);
  }

  /** `rejectRemainingSentinelsWalk`: whether a sentinel is left anywhere. */
  method FindSentinel(n: Node) returns (found: bool)
    requires n.Valid()
    ensures found == HasSentinel(n.value)
    decreases n.repr
  {
    n.ValueKind();
    if n.head.kind.IsScalar? {
      return n.head.text == KEEP;
    }
    found := false;
    var k := 0;
    while k < |n.kids| && !found
      invariant k <= |n.kids|
      invariant found == exists i | 0 <= i < k :: HasSentinel(n.Values()[i])
    {
      assert n.Below(k);
      assert n.Values()[k] == n.kids[k].value;
      found := FindSentinel(n.kids[k]);
      assert found ==> HasSentinel(n.Values()[k]);
      k := k + 1;
    }
    SentinelAssembled(n.head, n.Values());
  }

  lemma {:induction false} SentinelAssembled(h: Head, kids: seq<Tree>)
    requires Fits(h, |kids|) && !h.kind.IsScalar?
    ensures HasSentinel(Assemble(h, kids)) <==> exists i | 0 <= i < |kids| :: HasSentinel(kids[i])
  {
    if h.kind.IsMapping? {
      var es := EntriesOf(h.keys, kids);
      assert forall i | 0 <= i < |kids| :: es[i].value == kids[i];
    }
  }

  /** `restoreSecrets`. */
  method RestoreSecrets(n: Node, secret: SecretPaths, base: Tree, f: Option<Field>) returns (err: Option<Code>)
    requires n.Valid()
    modifies n.repr
    ensures n.Valid() && n.repr == old(n.repr)
    ensures var r := Restore(secret, base, old(n.value), f);
            if err.None? then r == Ok(n.value) else r == Err(err.value)
  {
    err := RestoreNode(n, secret, Some(base), f, "");
    if err.None? {
      var left := FindSentinel(n);
      if left {
        err := Some(SentinelMisuse);
      }
    }
  }
}
