/** Putting the base's secrets back where a submitted document says "keep". */
module Restoring {
  import opened Wrappers
  import opened Trees
  import opened Schema
  import opened Identity
  import opened Merging

  // ---- validateSubmittedSecrets ----

  function FirstError(rs: seq<Option<Code>>): (r: Option<Code>)
    ensures r.None? <==> forall i | 0 <= i < |rs| :: rs[i].None?
    ensures r.Some? ==> r in rs
  {
    if rs == [] then None else if rs[0].Some? then rs[0] else FirstError(rs[1..])
  }

  /** `validateSubmittedSecretsWalk`: the first misplaced sentinel or submitted literal secret. */
  function SubmitError(secret: SecretPaths, t: Tree, wild: string, inside: bool): Option<Code> {
    match t
    case Scalar(_, text, _) =>
      if text == KEEP && !secret(wild) then Some(SentinelMisuse)
      else if (inside || secret(wild)) && Literal(text) && text != KEEP then Some(LiteralSecretForbidden)
      else None
    case Mapping(es, _) =>
      var below := inside || secret(wild) || secret(Items(wild));
      FirstError(seq(|es|, i requires 0 <= i < |es| => SubmitError(secret, es[i].value, Join(wild, es[i].key), below)))
    case Sequence(items, _) =>
      var below := inside || secret(wild) || secret(Items(wild));
      FirstError(seq(|items|, i requires 0 <= i < |items| => SubmitError(secret, items[i], Items(wild), below)))
  }

  // ---- restoreSecrets ----

  /** The base node matched with the `i`-th child of the candidate node, if the walk looks at it:
      by key in mappings, by identity in keyed lists, by position in other lists. */
  function Match(cur: Option<Tree>, cand: Tree, f: Option<Field>, wild: string, i: nat): Option<Tree>
    requires i < |Children(cand)|
  {
    match cand
    case Mapping(es, _) =>
      if cur.Some? then Child(cur.value, es[i].key) else None
    case Sequence(items, _) =>
      var cis := if cur.Some? && cur.value.Sequence? then cur.value.items else [];
      var keys := IdentityKeys(f);
      if keys == [] then
        if i < |cis| then Some(cis[i]) else None
      else
        var id := IdentAt(items, i, keys, wild);
        var j := if id.None? then None else Find(Idents(cis, keys, wild), id.value);
        if j.None? then None else Some(cis[j.value])
    case Scalar(_, _, _) => None
  }

  /** Items of keyed lists without an identity are not walked. */
  predicate Walked(cand: Tree, f: Option<Field>, wild: string, i: nat)
    requires i < |Children(cand)|
  {
    cand.Sequence? && IdentityKeys(f) != [] ==> IdentAt(cand.items, i, IdentityKeys(f), wild).Some?
  }

  function BelowSchema(t: Tree, f: Option<Field>, i: nat): Option<Field>
    requires i < |Children(t)|
  {
    if t.Mapping? then ChildSchema(f, t.entries[i].key) else ItemSchema(f)
  }

  /** The scalar case: a sentinel takes the base's literal, or is refused. */
  predicate Keepable(secret: SecretPaths, cur: Option<Tree>, wild: string) {
    secret(wild) && cur.Some? && cur.value.Scalar? && !IsEnvRef(cur.value.text)
  }

  /** `restoreSecretsWalk`. */
  function RestoreWalk(secret: SecretPaths, cur: Option<Tree>, cand: Tree, f: Option<Field>,
                       wild: string): Result<Tree, Code>
    decreases cand
  {
    match cand
    case Scalar(_, text, note) =>
      if text != KEEP then Ok(cand)
      else if Keepable(secret, cur, wild) then Ok(Scalar(cur.value.tag, cur.value.text, note))
      else Err(SentinelMisuse)
    case Mapping(es, note) =>
      var rs := Collect(seq(|es|, i requires 0 <= i < |es| =>
        WithValue(es[i], RestoreWalk(secret, Match(cur, cand, f, wild, i), es[i].value,
                                     ChildSchema(f, es[i].key), Join(wild, es[i].key)))));
      if rs.Err? then Err(rs.error) else Ok(Mapping(rs.value, note))
    case Sequence(items, note) =>
      var rs := Collect(seq(|items|, i requires 0 <= i < |items| =>
        if Walked(cand, f, wild, i)
        then RestoreWalk(secret, Match(cur, cand, f, wild, i), items[i], ItemSchema(f), Items(wild))
        else Ok(items[i])));
      if rs.Err? then Err(rs.error) else Ok(Sequence(rs.value, note))
  }

  /** `rejectRemainingSentinelsWalk` finds one. */
  predicate HasSentinel(t: Tree) {
    match t
    case Scalar(_, text, _) => text == KEEP
    case Mapping(es, _) => exists i | 0 <= i < |es| :: HasSentinel(es[i].value)
    case Sequence(items, _) => exists i | 0 <= i < |items| :: HasSentinel(items[i])
  }

  /** `restoreSecrets`: the walk, then the final sweep. */
  function Restore(secret: SecretPaths, base: Tree, cand: Tree, f: Option<Field>): Result<Tree, Code> {
    var r := RestoreWalk(secret, Some(base), cand, f, "");
    if r.Ok? && HasSentinel(r.value) then Err(SentinelMisuse) else r
  }

  // ---- The independent description: one position at a time ----

  /** What the walk knows when it arrives at a position of the candidate. */
  datatype Visit = Visit(source: Option<Tree>, wild: string, walked: bool)

  /** The base node that stands at the same keys and identities as position `ps` of the candidate. */
  function VisitAt(cur: Option<Tree>, cand: Tree, f: Option<Field>, wild: string, ps: seq<nat>): Visit
    requires At(cand, ps).Some?
    decreases |ps|
  {
    if ps == [] then Visit(cur, wild, true)
    else
      var i := ps[0];
      if !Walked(cand, f, wild, i) then Visit(None, "", false)
      else VisitAt(Match(cur, cand, f, wild, i), Children(cand)[i], BelowSchema(cand, f, i), ChildPath(cand, wild, i),
        ps[1..])
  }

  /** A "keep" at `ps` can be honoured: the base has a literal secret at the very same place. */
  ghost predicate KeepAllowed(secret: SecretPaths, cur: Option<Tree>, cand: Tree, f: Option<Field>, wild: string,
                              ps: seq<nat>)
    requires At(cand, ps).Some?
  {
    var v := VisitAt(cur, cand, f, wild, ps);
    v.walked && Keepable(secret, v.source, v.wild) && v.source.value.text != KEEP
  }

  ghost predicate IsKeep(t: Tree, ps: seq<nat>) {
    At(t, ps).Some? && At(t, ps).value.Scalar? && At(t, ps).value.text == KEEP
  }

  /** What restoring must leave at a position. */
  ghost predicate RestoredTo(v: Visit, before: Tree, after: Tree) {
    match before
    case Scalar(_, text, note) =>
      if text == KEEP && v.walked
      then v.source.Some? && v.source.value.Scalar? && after == Scalar(v.source.value.tag, v.source.value.text, note)
      else after == before
    case Mapping(es, note) =>
      after.Mapping? && after.note == note && |after.entries| == |es| &&
      forall i | 0 <= i < |es| :: after.entries[i].key == es[i].key && after.entries[i].keyNote == es[i].keyNote
    case Sequence(items, note) => after.Sequence? && after.note == note && |after.items| == |items|
  }

  /** The result of the walk on the `i`-th child. */
  lemma {:induction false} RestoreChild(secret: SecretPaths, cur: Option<Tree>, cand: Tree, f: Option<Field>,
                                        wild: string, i: nat)
    requires i < |Children(cand)|
    ensures var r := RestoreWalk(secret, cur, cand, f, wild);
            r.Ok? ==>
              |Children(r.value)| == |Children(cand)| &&
              (if Walked(cand, f, wild, i)
               then RestoreWalk(secret, Match(cur, cand, f, wild, i), Children(cand)[i],
                                BelowSchema(cand, f, i), ChildPath(cand, wild, i)) == Ok(Children(r.value)[i])
               else Children(r.value)[i] == Children(cand)[i])
  {
  }

  /** The walk succeeds on a container exactly when it succeeds on every walked child. */
  lemma {:induction false} RestoreOkBelow(secret: SecretPaths, cur: Option<Tree>, cand: Tree, f: Option<Field>,
                                          wild: string)
    requires !cand.Scalar?
    ensures RestoreWalk(secret, cur, cand, f, wild).Ok? <==>
            forall i | 0 <= i < |Children(cand)| && Walked(cand, f, wild, i) ::
              RestoreWalk(secret, Match(cur, cand, f, wild, i), Children(cand)[i],
                          BelowSchema(cand, f, i), ChildPath(cand, wild, i)).Ok?
  {
    match cand
    case Mapping(es, note) =>
      var rs := seq(|es|, i requires 0 <= i < |es| =>
        WithValue(es[i], RestoreWalk(secret, Match(cur, cand, f, wild, i), es[i].value,
                                     ChildSchema(f, es[i].key), Join(wild, es[i].key))));
      assert RestoreWalk(secret, cur, cand, f, wild).Ok? <==> Collect(rs).Ok?;
      forall i | 0 <= i < |es|
        ensures rs[i].Ok? <==> RestoreWalk(secret, Match(cur, cand, f, wild, i), Children(cand)[i],
                                           BelowSchema(cand, f, i), ChildPath(cand, wild, i)).Ok?
      {
      }
    case Sequence(items, note) =>
      var rs := seq(|items|, i requires 0 <= i < |items| =>
        if Walked(cand, f, wild, i)
        then RestoreWalk(secret, Match(cur, cand, f, wild, i), items[i], ItemSchema(f), Items(wild))
        else Ok(items[i]));
      assert RestoreWalk(secret, cur, cand, f, wild).Ok? <==> Collect(rs).Ok?;
      forall i | 0 <= i < |items|
        ensures rs[i].Ok? <==>
                (Walked(cand, f, wild, i) ==>
                   RestoreWalk(secret, Match(cur, cand, f, wild, i), Children(cand)[i],
                               BelowSchema(cand, f, i), ChildPath(cand, wild, i)).Ok?)
      {
      }
  }

  /** At every position the walk either restores a sentinel from its source or changes nothing. */
  lemma {:induction false} RestoreAt(secret: SecretPaths, cur: Option<Tree>, cand: Tree, f: Option<Field>,
                                     wild: string, ps: seq<nat>)
    requires RestoreWalk(secret, cur, cand, f, wild).Ok?
    ensures var r := RestoreWalk(secret, cur, cand, f, wild).value;
            (At(r, ps).Some? <==> At(cand, ps).Some?) &&
            (At(cand, ps).Some? ==> RestoredTo(VisitAt(cur, cand, f, wild, ps), At(cand, ps).value, At(r, ps).value))
    decreases |ps|
  {
    var r := RestoreWalk(secret, cur, cand, f, wild).value;
    if ps != [] && ps[0] < |Children(cand)| {
      var i := ps[0];
      RestoreChild(secret, cur, cand, f, wild, i);
      if Walked(cand, f, wild, i) {
        RestoreAt(secret, Match(cur, cand, f, wild, i), Children(cand)[i], BelowSchema(cand, f, i),
          ChildPath(cand, wild, i), ps[1..]);
      } else if At(cand, ps).Some? {
        assert RestoredTo(Visit(None, "", false), At(cand, ps).value, At(cand, ps).value);
      }
    } else {
      assert |Children(r)| == |Children(cand)|;
    }
  }

  lemma {:induction false} SentinelAt(t: Tree)
    ensures HasSentinel(t) <==> exists ps :: IsKeep(t, ps)
  {
    if HasSentinel(t) {
      if t.Scalar? {
        assert IsKeep(t, []);
      } else {
        var i := SentinelChild(t);
        SentinelAt(Children(t)[i]);
        var qs :| IsKeep(Children(t)[i], qs);
        assert ([i] + qs)[1..] == qs;
        assert IsKeep(t, [i] + qs);
      }
    }
    if ps :| IsKeep(t, ps) {
      if ps != [] {
        SentinelAt(Children(t)[ps[0]]);
        assert IsKeep(Children(t)[ps[0]], ps[1..]);
        SentinelBelow(t, ps[0]);
      }
    }
  }

  lemma {:induction false} SentinelChild(t: Tree) returns (i: nat)
    requires HasSentinel(t) && !t.Scalar?
    ensures i < |Children(t)| && HasSentinel(Children(t)[i])
  {
    match t
    case Mapping(es, _) => i :| 0 <= i < |es| && HasSentinel(es[i].value);
    case Sequence(items, _) => i :| 0 <= i < |items| && HasSentinel(items[i]);
  }

  lemma {:induction false} SentinelBelow(t: Tree, i: nat)
    requires i < |Children(t)| && HasSentinel(Children(t)[i])
    ensures HasSentinel(t)
  {
  }

  /** The walk fails on a sentinel it meets and cannot restore. */
  lemma {:induction false} WalkFails(secret: SecretPaths, cur: Option<Tree>, cand: Tree, f: Option<Field>,
                                     wild: string, ps: seq<nat>)
    requires IsKeep(cand, ps)
    requires var v := VisitAt(cur, cand, f, wild, ps); v.walked && !Keepable(secret, v.source, v.wild)
    ensures RestoreWalk(secret, cur, cand, f, wild).Err?
    decreases |ps|
  {
    if ps != [] {
      var i := ps[0];
      WalkFails(secret, Match(cur, cand, f, wild, i), Children(cand)[i], BelowSchema(cand, f, i),
        ChildPath(cand, wild, i), ps[1..]);
      RestoreOkBelow(secret, cur, cand, f, wild);
    }
  }

  lemma {:induction false} FailingChild(secret: SecretPaths, cur: Option<Tree>, cand: Tree, f: Option<Field>,
                                        wild: string) returns (i: nat)
    requires RestoreWalk(secret, cur, cand, f, wild).Err? && !cand.Scalar?
    ensures i < |Children(cand)| && Walked(cand, f, wild, i)
    ensures RestoreWalk(secret, Match(cur, cand, f, wild, i), Children(cand)[i],
                        BelowSchema(cand, f, i), ChildPath(cand, wild, i)).Err?
  {
    RestoreOkBelow(secret, cur, cand, f, wild);
    i :| 0 <= i < |Children(cand)| && Walked(cand, f, wild, i) &&
         RestoreWalk(secret, Match(cur, cand, f, wild, i), Children(cand)[i],
                     BelowSchema(cand, f, i), ChildPath(cand, wild, i)).Err?;
  }

  /** The walk fails only on such a sentinel. */
  lemma {:induction false} WalkFailsWhere(secret: SecretPaths, cur: Option<Tree>, cand: Tree, f: Option<Field>,
                                          wild: string) returns (ps: seq<nat>)
    requires RestoreWalk(secret, cur, cand, f, wild).Err?
    ensures IsKeep(cand, ps)
    ensures var v := VisitAt(cur, cand, f, wild, ps); v.walked && !Keepable(secret, v.source, v.wild)
    decreases cand
  {
    if cand.Scalar? {
      ps := [];
    } else {
      var i := FailingChild(secret, cur, cand, f, wild);
      var qs := WalkFailsWhere(secret, Match(cur, cand, f, wild, i), Children(cand)[i],
                               BelowSchema(cand, f, i), ChildPath(cand, wild, i));
      ps := [i] + qs;
      assert ps[1..] == qs;
    }
  }

  /** Secrets never move: after a successful restore no sentinel is left, every former sentinel
      holds the tag and text the base has at the same keys and identities, which is a literal at a
      secret path, and every other scalar and all structure and comments are untouched. */
  lemma {:induction false} SecretsNeverMove(secret: SecretPaths, base: Tree, cand: Tree, f: Option<Field>, ps: seq<nat>)
    requires Restore(secret, base, cand, f).Ok?
    ensures var r := Restore(secret, base, cand, f).value;
            (At(r, ps).Some? <==> At(cand, ps).Some?) && !IsKeep(r, ps) &&
            (At(cand, ps).Some? ==>
              RestoredTo(VisitAt(Some(base), cand, f, "", ps), At(cand, ps).value, At(r, ps).value)) &&
            (IsKeep(cand, ps) ==> KeepAllowed(secret, Some(base), cand, f, "", ps))
  {
    var r := Restore(secret, base, cand, f).value;
    RestoreAt(secret, Some(base), cand, f, "", ps);
    SentinelAt(r);
    if IsKeep(cand, ps) &&
      !Keepable(secret, VisitAt(Some(base), cand, f, "", ps).source, VisitAt(Some(base), cand, f, "", ps).wild) {
      if VisitAt(Some(base), cand, f, "", ps).walked {
        WalkFails(secret, Some(base), cand, f, "", ps);
      }
    }
  }

  /** A submitted document is accepted exactly when every "keep" in it stands where the base has a
      literal secret of its own. */
  lemma {:induction false} RestoreAcceptsExactly(secret: SecretPaths, base: Tree, cand: Tree, f: Option<Field>)
    ensures Restore(secret, base, cand, f).Ok? <==>
            forall ps | IsKeep(cand, ps) :: KeepAllowed(secret, Some(base), cand, f, "", ps)
  {
    if Restore(secret, base, cand, f).Ok? {
      forall ps | IsKeep(cand, ps) ensures KeepAllowed(secret, Some(base), cand, f, "", ps) {
        SecretsNeverMove(secret, base, cand, f, ps);
      }
    } else {
      var w := RestoreWalk(secret, Some(base), cand, f, "");
      if w.Err? {
        var ps := WalkFailsWhere(secret, Some(base), cand, f, "");
        assert IsKeep(cand, ps) && !KeepAllowed(secret, Some(base), cand, f, "", ps);
      } else {
        SentinelAt(w.value);
        var ps :| IsKeep(w.value, ps);
        RestoreAt(secret, Some(base), cand, f, "", ps);
        assert IsKeep(cand, ps) && !KeepAllowed(secret, Some(base), cand, f, "", ps);
      }
    }
  }
}
