/** Concrete documents, under the gateway's own schema, for which the edit engine does not do what an
    editor expects. */
module LostEdits {
  import opened Wrappers
  import opened Trees
  import opened Schema
  import opened Redaction
  import opened Identity
  import opened Merging
  import opened Restoring
  import opened Diffing
  import opened DiffLaws
  import opened Masking
  import opened EditLaws
  import opened NoOpLaws
  import opened ShippedSchema
  import opened TagEdits
  import CS = ConfigStore
  import SL = StoreLaws
  import RestartLaws

  // ---- Documents without secrets ----

  /** No literal stands at a secret path, no container has one, and there is no sentinel. */
  ghost predicate Bare(secret: SecretPaths, t: Tree, wild: string) {
    match t
    case Scalar(_, text, _) => text != KEEP && (secret(wild) ==> !Literal(text))
    case Mapping(es, _) =>
      !ContainerSecret(secret, wild) && forall i | 0 <= i < |es| :: Bare(secret, es[i].value, Join(wild, es[i].key))
    case Sequence(xs, _) =>
      !ContainerSecret(secret, wild) && forall i | 0 <= i < |xs| :: Bare(secret, xs[i], Items(wild))
  }

  /** Redaction leaves a bare document alone. */
  lemma {:induction false} BareRedact(secret: SecretPaths, t: Tree, wild: string)
    requires Bare(secret, t, wild) && NoSecretWildcards(secret)
    ensures Redact(secret, t, wild) == t && RedactValue(secret, t, wild) == t
  {
    match t
    case Scalar(_, _, _) =>
    case Mapping(es, _) =>
      var ms := Redact(secret, t, wild).entries;
      forall i | 0 <= i < |es| ensures ms[i] == es[i] {
        BareRedact(secret, es[i].value, Join(wild, es[i].key));
      }
      assert ms == es;
    case Sequence(xs, _) =>
      var ms := Redact(secret, t, wild).items;
      forall i | 0 <= i < |xs| ensures ms[i] == xs[i] {
        BareRedact(secret, xs[i], Items(wild));
      }
      assert ms == xs;
  }

  lemma {:induction false} BareSubmit(secret: SecretPaths, t: Tree, wild: string)
    requires Bare(secret, t, wild)
    ensures SubmitError(secret, t, wild, false).None?
  {
    if !t.Scalar? {
      SubmitBelow(secret, t, wild, false);
    }
    match t
    case Scalar(_, _, _) =>
    case Mapping(es, _) =>
      forall i | 0 <= i < |es| ensures SubmitError(secret, es[i].value, Join(wild, es[i].key), false).None? {
        BareSubmit(secret, es[i].value, Join(wild, es[i].key));
      }
    case Sequence(xs, _) =>
      forall i | 0 <= i < |xs| ensures SubmitError(secret, xs[i], Items(wild), false).None? {
        BareSubmit(secret, xs[i], Items(wild));
      }
  }

  lemma {:induction false} BareClean(secret: SecretPaths, t: Tree, wild: string)
    requires Bare(secret, t, wild)
    ensures !HasSentinel(t)
  {
    match t
    case Scalar(_, _, _) =>
    case Mapping(es, _) =>
      forall i | 0 <= i < |es| ensures !HasSentinel(es[i].value) {
        BareClean(secret, es[i].value, Join(wild, es[i].key));
      }
    case Sequence(xs, _) =>
      forall i | 0 <= i < |xs| ensures !HasSentinel(xs[i]) {
        BareClean(secret, xs[i], Items(wild));
      }
  }

  /** Without sentinels the restoring walk changes nothing. */
  lemma {:induction false} CleanRestore(secret: SecretPaths, cur: Option<Tree>, t: Tree, f: Option<Field>, wild: string)
    requires !HasSentinel(t)
    ensures RestoreWalk(secret, cur, t, f, wild) == Ok(t)
    decreases t
  {
    forall i | 0 <= i < |Children(t)| && Walked(t, f, wild, i)
      ensures RestoreWalk(secret, Match(cur, t, f, wild, i), Children(t)[i], BelowSchema(t, f, i),
              ChildPath(t, wild, i))
              == Ok(Children(t)[i])
    {
      CleanChild(t, i);
      CleanRestore(secret, Match(cur, t, f, wild, i), Children(t)[i], BelowSchema(t, f, i), ChildPath(t, wild, i));
    }
    if !t.Scalar? {
      RestoreOkBelow(secret, cur, t, f, wild);
      SameChildren(secret, cur, t, f, wild);
    }
  }

  lemma {:induction false} CleanChild(t: Tree, i: nat)
    requires !HasSentinel(t) && i < |Children(t)|
    ensures !HasSentinel(Children(t)[i]) && Children(t)[i] < t
  {
    match t
    case Mapping(es, _) => assert Children(t)[i] == es[i].value;
    case Sequence(xs, _) => assert Children(t)[i] == xs[i];
    case Scalar(_, _, _) =>
  }

  lemma {:induction false} SameChildren(secret: SecretPaths, cur: Option<Tree>, t: Tree, f: Option<Field>, wild: string)
    requires !t.Scalar? && RestoreWalk(secret, cur, t, f, wild).Ok?
    requires forall i | 0 <= i < |Children(t)| && Walked(t, f, wild, i) ::
               RestoreWalk(secret, Match(cur, t, f, wild, i), Children(t)[i], BelowSchema(t, f, i),
                 ChildPath(t, wild, i))
               == Ok(Children(t)[i])
    ensures RestoreWalk(secret, cur, t, f, wild) == Ok(t)
  {
    var r := RestoreWalk(secret, cur, t, f, wild).value;
    forall i | 0 <= i < |Children(t)| ensures |Children(r)| == |Children(t)| && Children(r)[i] == Children(t)[i] {
      RestoreChild(secret, cur, t, f, wild, i);
    }
    match t
    case Mapping(es, _) =>
      assert forall i | 0 <= i < |es| :: r.entries[i].key == es[i].key && r.entries[i].keyNote == es[i].keyNote;
      assert forall i | 0 <= i < |es| :: Children(r)[i] == r.entries[i].value && Children(t)[i] == es[i].value;
      assert r.entries == es;
    case Sequence(xs, _) => assert r.items == xs;
    case Scalar(_, _, _) =>
  }

  /** A bare document is accepted as it is. */
  lemma {:induction false} BareAccepted(secret: SecretPaths, f: Option<Field>, base: Tree, doc: Tree)
    requires doc.Mapping? && Bare(secret, doc, "")
    ensures Candidate(secret, f, base, Raw(doc)) == Ok(doc)
  {
    BareSubmit(secret, doc, "");
    BareClean(secret, doc, "");
    CleanRestore(secret, Some(base), doc, f, "");
  }

  /** The edit is accepted, means something else than the base, and reports no change. */
  ghost predicate Lost(secret: SecretPaths, f: Option<Field>, base: Tree, edit: Edit, cand: Tree) {
    Candidate(secret, f, base, edit) == Ok(cand) && Abs(cand) != Abs(base) && Changes(secret, f, base, cand) == []
  }

  /** An edit from one bare document to another that the walk does not see is lost. */
  lemma {:induction false} Unseen(secret: SecretPaths, f: Option<Field>, b: Tree, a: Tree)
    requires b.Mapping? && a.Mapping? && Bare(secret, b, "") && Bare(secret, a, "") && NoSecretWildcards(secret)
    requires Diff(Some(b), a, f, "") == [] && Abs(a) != Abs(b)
    ensures Lost(secret, f, b, Raw(a), a)
  {
    BareAccepted(secret, f, b, a);
    BareRedact(secret, b, "");
    BareRedact(secret, a, "");
  }

  // ---- Building documents ----

  function Text(s: string): Tree {
    Scalar("!!str", s, "")
  }

  function One(key: string, v: Tree): Tree {
    Mapping([Entry(key, "", v)], "")
  }

  function Two(key: string, v: Tree, other: string, w: Tree): Tree {
    Mapping([Entry(key, "", v), Entry(other, "", w)], "")
  }

  function Only(x: Tree): Tree {
    Sequence([x], "")
  }

  /** An unseen edit below the only key of a document. */
  lemma {:induction false} OneUnseen(key: string, v: Tree, w: Tree, f: Option<Field>, path: string)
    requires Diff(Some(v), w, ChildSchema(f, key), Join(path, key)) == []
    ensures Diff(Some(One(key, v)), One(key, w), f, path) == []
    ensures Abs(v) != Abs(w) ==> Abs(One(key, v)) != Abs(One(key, w))
  {
    var es := [Entry(key, "", v)];
    assert Exchanged(es, 0, w) == [Entry(key, "", w)];
    FieldUnseen(es, 0, w, "", f, path);
  }

  /** The same at the top of the document. */
  lemma {:induction false} FieldLost(secret: SecretPaths, f: Option<Field>, key: string, v: Tree, w: Tree)
    requires key != "" && Diff(Some(v), w, ChildSchema(f, key), key) == [] && Abs(v) != Abs(w)
    requires Bare(secret, One(key, v), "") && Bare(secret, One(key, w), "") && NoSecretWildcards(secret)
    ensures Lost(secret, f, One(key, v), Raw(One(key, w)), One(key, w))
  {
    OneUnseen(key, v, w, f, "");
    Unseen(secret, f, One(key, v), One(key, w));
  }

  /** The same below the second key. */
  lemma {:induction false} TwoUnseen(key: string, u: Tree, other: string, v: Tree, w: Tree, f: Option<Field>,
                                     path: string)
    requires key != other && Diff(Some(v), w, ChildSchema(f, other), Join(path, other)) == []
    ensures Diff(Some(Two(key, u, other, v)), Two(key, u, other, w), f, path) == []
    ensures Abs(v) != Abs(w) ==> Abs(Two(key, u, other, v)) != Abs(Two(key, u, other, w))
  {
    var es := [Entry(key, "", u), Entry(other, "", v)];
    assert Exchanged(es, 1, w) == [Entry(key, "", u), Entry(other, "", w)];
    FieldUnseen(es, 1, w, "", f, path);
  }

  lemma {:induction false} ChildOf(key: string, v: Tree, other: string, w: Tree)
    requires key != other
    ensures Child(One(key, v), key) == Some(v)
    ensures Child(Two(key, v, other, w), key) == Some(v) && Child(Two(key, v, other, w), other) == Some(w)
    ensures Child(One(key, v), other) == None
  {
    var t := Two(key, v, other, w);
    assert t.entries[0].key == key && t.entries[1].key == other;
    assert One(key, v).entries[0].key == key;
  }

  /** A second item that repeats the first one's identity and content, or has no identity, is not
      seen. */
  lemma {:induction false} AddedUnseen(x: Tree, y: Tree, f: Option<Field>, path: string)
    requires IdentityKeys(f) != [] && Selector(x, IdentityKeys(f), path).Some?
    requires Selector(y, IdentityKeys(f), path).None? || (y == x && !OccurrencePath(path))
    ensures Diff(Some(Only(x)), Sequence([x, y], ""), f, path) == []
    ensures Abs(Only(x)) != Abs(Sequence([x, y], ""))
  {
    var xs, ys := [x], [x, y];
    var keys := IdentityKeys(f);
    var bids, aids := Idents(xs, keys, path), Idents(ys, keys, path);
    assert ys[..1] == xs;
    assert Count(xs, 1, Selector(x, keys, path).value, keys, path) == 1;
    assert Count(ys, 1, Selector(x, keys, path).value, keys, path) == 1;
    assert bids[0] == aids[0] && bids[0].Some?;
    assert aids[1].None? || aids[1] == aids[0];
    assert Find(bids, bids[0].value) == Some(0);
    SelfEqual(x);
    var walked := WalkedItems(xs, ys, f, path);
    assert walked[0] == [] && walked[1] == [];
    assert RemovedItems(bids, aids, path)[0] == [];
    KnownPair(bids, aids);
    KeyedDiffIs(Only(x), Sequence(ys, ""), f, path);
    ListsEqual(xs, ys, "", "");
  }

  lemma {:induction false} KnownPair(bids: seq<Option<Ident>>, aids: seq<Option<Ident>>)
    requires |bids| == 1 && |aids| == 2 && bids[0] == aids[0] && bids[0].Some?
    ensures |Known(bids)| == |Known(aids)| ==> Known(bids) == Known(aids)
  {
    assert aids[1..] == [aids[1]] && bids[1..] == [] && [aids[1]][1..] == [];
    assert Known([aids[1]]) == if aids[1].Some? then [aids[1].value] else [];
    assert Known(aids) == [aids[0].value] + Known([aids[1]]);
    assert Known(bids) == [bids[0].value] + Known([]);
  }

  // ---- Edits that are lost ----

  /** A free-tier entry. */
  function Tier(provider: string, model: string): Tree {
    Two("provider", Text(provider), "model", Text(model))
  }

  lemma {:induction false} TierSelector(provider: string, model: string)
    ensures Selector(Tier(provider, model), ["provider", "model"], "free_tier").Some?
    ensures Selector(One("provider", Text(provider)), ["provider", "model"], "free_tier").None?
  {
    ChildOf("provider", Text(provider), "model", Text(model));
    var keys := ["provider", "model"];
    assert keys[0] == "provider" && keys[1..] == ["model"] && ["model"][1..] == [];
    assert |"free_tier"| != |"failure_rules"|;
    var t, u := Tier(provider, model), One("provider", Text(provider));
    assert |"provider"| != |"model"|;
    assert IdentityText(t, []).Some? && IdentityText(t, ["model"]).Some? && IdentityText(t, keys).Some?;
    assert Child(u, "model").None? && IdentityText(u, ["model"]).None?;
  }

  lemma {:induction false} FormFields()
    ensures ChildSchema(Some(Form()), "free_tier") == Some(FreeTier())
    ensures ChildSchema(Some(Form()), "providers") == Some(Providers())
    ensures ChildSchema(Some(Form()), "listen") == Some(Leaf("listen"))
    ensures ChildSchema(Some(Form()), "admin_key") == Some(Leaf("admin_key"))
  {
  }

  lemma {:induction false} BareTier(t: Tree)
    requires t == Tier("p", "m") || t == One("provider", Text("p"))
    ensures Bare(IsSecretPath, t, "free_tier[]")
  {
    HarmlessNotSecret("free_tier[]");
    HarmlessNotSecret("free_tier[][]");
    HarmlessNotSecret("free_tier[].provider");
    HarmlessNotSecret("free_tier[].model");
    assert Join("free_tier[]", "provider") == "free_tier[].provider" &&
           Join("free_tier[]", "model") == "free_tier[].model";
    assert |KEEP| > 1;
  }

  lemma {:induction false} BareTiers(xs: seq<Tree>)
    requires forall i | 0 <= i < |xs| :: Bare(IsSecretPath, xs[i], "free_tier[]")
    ensures Bare(IsSecretPath, One("free_tier", Sequence(xs, "")), "")
  {
    HarmlessNotSecret("free_tier");
    HarmlessNotSecret("free_tier[]");
    assert Items("free_tier") == "free_tier[]" && Join("", "free_tier") == "free_tier";
    assert Bare(IsSecretPath, Sequence(xs, ""), "free_tier");
  }

  /** Repeating an entry of the free-tier catalogue, or adding one without a model, is accepted and
      reported as no change. */
  lemma {:induction false} AddedTierLost(y: Tree)
    requires y == Tier("p", "m") || y == One("provider", Text("p"))
    ensures var b := One("free_tier", Only(Tier("p", "m")));
            var a := One("free_tier", Sequence([Tier("p", "m"), y], ""));
            Lost(IsSecretPath, Some(Form()), b, Raw(a), a)
  {
    var x := Tier("p", "m");
    AddedTierUnseen(x, y, FreeTier());
    BareTier(x);
    BareTier(y);
    BareTiers([x]);
    BareTiers([x, y]);
    NoWildcards();
    FormFields();
    FieldLost(IsSecretPath, Some(Form()), "free_tier", Only(x), Sequence([x, y], ""));
  }

  lemma {:induction false} AddedTierUnseen(x: Tree, y: Tree, f: Field)
    requires x == Tier("p", "m") && (y == x || y == One("provider", Text("p"))) && f.identity == ["provider", "model"]
    ensures Diff(Some(Only(x)), Sequence([x, y], ""), Some(f), "free_tier") == []
    ensures Abs(Only(x)) != Abs(Sequence([x, y], ""))
  {
    TierSelector("p", "m");
    assert |"free_tier"| != |"failure_rules"| && |"free_tier"| != |"search"|;
    AddedUnseen(x, y, Some(f), "free_tier");
  }

  /** A provider with a free-form override of every request. */
  function Provider(o: Tree): Tree {
    Two("name", Text("p"), "param_override", o)
  }

  function Providing(o: Tree): Tree {
    One("providers", Only(Provider(o)))
  }

  const OVERRIDE := "providers[].param_override"

  lemma {:induction false} BareProvider(o: Tree)
    requires Bare(IsSecretPath, o, OVERRIDE)
    ensures Bare(IsSecretPath, Providing(o), "")
  {
    assert Join("", "providers") == "providers" && Items("providers") == "providers[]";
    assert Join("providers[]", "param_override") == OVERRIDE && Join("providers[]", "name") == "providers[].name";
    HarmlessNotSecret("providers");
    HarmlessNotSecret("providers[]");
    HarmlessNotSecret("providers[][]");
    HarmlessNotSecret("providers[].name");
    assert |KEEP| > |"p"|;
    BareTwo(IsSecretPath, "name", Text("p"), "param_override", o, "providers[]");
    BareOnly(IsSecretPath, Provider(o), "providers");
    HarmlessNotSecret("[]");
    BareOne(IsSecretPath, "providers", Only(Provider(o)), "");
  }

  lemma {:induction false} BareOne(secret: SecretPaths, key: string, v: Tree, path: string)
    requires !secret(path) && !secret(Items(path)) && Bare(secret, v, Join(path, key))
    ensures Bare(secret, One(key, v), path)
  {
  }

  lemma {:induction false} BareTwo(secret: SecretPaths, key: string, v: Tree, other: string, w: Tree, path: string)
    requires !secret(path) && !secret(Items(path)) && Bare(secret, v, Join(path, key)) &&
             Bare(secret, w, Join(path, other))
    ensures Bare(secret, Two(key, v, other, w), path)
  {
  }

  lemma {:induction false} BareOnly(secret: SecretPaths, x: Tree, path: string)
    requires !secret(path) && !secret(Items(path)) && Bare(secret, x, Items(path))
    ensures Bare(secret, Only(x), path)
  {
  }

  lemma {:induction false} LongNotSecret(p: string)
    requires |p| > 22
    ensures !IsSecretPath(p)
  {
    assert |"providers[].api_key"| == 19 && |"providers[].api_keys[]"| == 22;
    assert |"search[].api_key"| == 16 && |"search[].api_keys[]"| == 19;
  }

  lemma {:induction false} ProvidersFacts()
    ensures Providers().identity == ["name"] && ChildSchema(Providers().item, "param_override") == None
  {
  }

  /** An edit of the override that the walk does not see is lost. */
  lemma {:induction false} OverrideLost(o: Tree, p: Tree)
    requires Bare(IsSecretPath, o, OVERRIDE) && Bare(IsSecretPath, p, OVERRIDE)
    requires Diff(Some(o), p, None, OVERRIDE) == [] && Abs(o) != Abs(p)
    ensures Lost(IsSecretPath, Some(Form()), Providing(o), Raw(Providing(p)), Providing(p))
  {
    BareProvider(o);
    BareProvider(p);
    NoWildcards();
    FormFields();
    ProvidersFacts();
    ProviderLost(IsSecretPath, Some(Form()), Providers(), o, p);
  }

  lemma {:induction false} ProviderLost(secret: SecretPaths, f: Option<Field>, providers: Field, o: Tree, p: Tree)
    requires Diff(Some(o), p, None, OVERRIDE) == [] && Abs(o) != Abs(p)
    requires ChildSchema(f, "providers") == Some(providers)
    requires providers.identity == ["name"] && ChildSchema(providers.item, "param_override") == None
    requires Bare(secret, Providing(o), "") && Bare(secret, Providing(p), "") && NoSecretWildcards(secret)
    ensures Lost(secret, f, Providing(o), Raw(Providing(p)), Providing(p))
  {
    ProvidersUnseen(o, p, providers);
    FieldLost(secret, f, "providers", Only(Provider(o)), Only(Provider(p)));
  }

  lemma {:induction false} OverridePath()
    ensures Join(Items("providers"), "param_override") == OVERRIDE
  {
  }

  lemma {:induction false} ProvidersUnseen(o: Tree, p: Tree, providers: Field)
    requires Diff(Some(o), p, None, OVERRIDE) == [] && Abs(o) != Abs(p)
    requires providers.identity == ["name"] && ChildSchema(providers.item, "param_override") == None
    ensures Diff(Some(Only(Provider(o))), Only(Provider(p)), Some(providers), "providers") == []
    ensures Abs(Only(Provider(o))) != Abs(Only(Provider(p)))
  {
    OverridePath();
    ProviderSelector(o);
    ProviderSelector(p);
    ProviderUnseen(o, p, providers, "providers");
  }

  lemma {:induction false} ProviderUnseen(o: Tree, p: Tree, f: Field, path: string)
    requires f.identity != [] && ChildSchema(f.item, "param_override") == None
    requires Diff(Some(o), p, None, Join(Items(path), "param_override")) == [] && Abs(o) != Abs(p)
    requires Selector(Provider(o), f.identity, path) == Selector(Provider(p), f.identity, path) != None
    ensures Diff(Some(Only(Provider(o))), Only(Provider(p)), Some(f), path) == []
    ensures Abs(Only(Provider(o))) != Abs(Only(Provider(p)))
  {
    TwoUnseen("name", Text("p"), "param_override", o, p, f.item, Items(path));
    OnlyUnseen(Provider(o), Provider(p), Some(f), path);
  }

  /** An unseen edit of the only item of a keyed list. */
  lemma {:induction false} OnlyUnseen(x: Tree, y: Tree, f: Option<Field>, path: string)
    requires IdentityKeys(f) != [] && Selector(x, IdentityKeys(f), path).Some?
    requires Selector(x, IdentityKeys(f), path) == Selector(y, IdentityKeys(f), path)
    requires Diff(Some(x), y, ItemSchema(f), Items(path)) == []
    ensures Diff(Some(Only(x)), Only(y), f, path) == []
    ensures Abs(x) != Abs(y) ==> Abs(Only(x)) != Abs(Only(y))
  {
    OneTold(x, IdentityKeys(f), path);
    var xs := [x];
    assert xs[0 := y] == [y];
    ItemUnseen(xs, 0, y, "", f, path);
  }

  lemma {:induction false} OneTold(x: Tree, keys: seq<string>, path: string)
    requires Selector(x, keys, path).Some?
    ensures Told(Idents([x], keys, path))
  {
  }

  lemma {:induction false} ProviderSelector(o: Tree)
    ensures Selector(Provider(o), ["name"], "providers") == Some("name=p\0")
  {
    assert |"providers"| != |"failure_rules"| && |"name"| != |"param_override"|;
    ChildOf("name", Text("p"), "param_override", o);
    assert ["name"][1..] == [];
    assert IdentityText(Provider(o), []) == Some("");
    assert "name" + "=" + "p" + "\0" + "" == "name=p\0";
  }

  // ---- Below the first level of a list ----

  /** An override of the tools of every request. */
  function Tools(tool: string): Tree {
    One("tools", Only(One("type", Text(tool))))
  }

  lemma {:induction false} BareTools(tool: string, p: string)
    requires tool != KEEP && |p| > 22
    ensures Bare(IsSecretPath, Tools(tool), p)
  {
    var q := Join(p, "tools");
    var r := Join(Items(q), "type");
    LongNotSecret(p);
    LongNotSecret(Items(p));
    LongNotSecret(q);
    LongNotSecret(Items(q));
    LongNotSecret(Items(Items(q)));
    LongNotSecret(r);
    assert Bare(IsSecretPath, Text(tool), r);
    assert Bare(IsSecretPath, One("type", Text(tool)), Items(q));
    assert Bare(IsSecretPath, Only(One("type", Text(tool))), q);
  }

  /** Editing an object inside a list of a provider's parameter override is accepted and reported as
      no change. */
  lemma {:induction false} NestedEditLost(s: string, t: string)
    requires s != t && s != KEEP && t != KEEP
    ensures Lost(IsSecretPath, Some(Form()), Providing(Tools(s)), Raw(Providing(Tools(t))), Providing(Tools(t)))
  {
    BareTools(s, OVERRIDE);
    BareTools(t, OVERRIDE);
    ToolsUnseen(s, t, OVERRIDE);
    OverrideLost(Tools(s), Tools(t));
  }

  lemma {:induction false} ToolsUnseen(s: string, t: string, path: string)
    requires s != t
    ensures Diff(Some(Tools(s)), Tools(t), None, path) == [] && Abs(Tools(s)) != Abs(Tools(t))
  {
    var v, w := One("type", Text(s)), One("type", Text(t));
    OneUnlike("type", Text(s), Text(t));
    OnlyUnlike(v, w);
    assert ShallowEqual([v], [w]);
    OneUnseen("tools", Only(v), Only(w), None, path);
  }

  lemma {:induction false} OnlyUnlike(v: Tree, w: Tree)
    requires Abs(v) != Abs(w)
    ensures Abs(Only(v)) != Abs(Only(w))
  {
    ListsEqual([v], [w], "", "");
    assert [v][0] == v && [w][0] == w;
  }

  lemma {:induction false} OneUnlike(key: string, v: Tree, w: Tree)
    requires Abs(v) != Abs(w)
    ensures Abs(One(key, v)) != Abs(One(key, w))
  {
    ChildOf(key, v, key + "x", v);
    ChildOf(key, w, key + "x", w);
    DictsEqual(One(key, v).entries, One(key, w).entries, "", "");
  }

  // ---- Tags ----

  function Quoted(): Tree {
    Scalar("!!str", "8080", "")
  }

  function Number(): Tree {
    Scalar("!!int", "8080", "")
  }

  lemma {:induction false} TagsDiffer()
    ensures Abs(Quoted()) != Abs(Number()) && "8080" != KEEP
  {
    assert "!!str"[2] != "!!int"[2] && |"8080"| != |KEEP|;
  }

  /** An override that sends `v` upstream as the seed. */
  function Seed(v: Tree): Tree {
    One("seed", v)
  }

  lemma {:induction false} BareSeed(v: Tree, p: string)
    requires v == Quoted() || v == Number()
    requires |p| > 22
    ensures Bare(IsSecretPath, Seed(v), p)
  {
    TagsDiffer();
    LongNotSecret(p);
    LongNotSecret(Items(p));
    LongNotSecret(Join(p, "seed"));
    BareOne(IsSecretPath, "seed", v, p);
  }

  /** Turning a quoted number of a parameter override into a number is accepted and reported as no
      change. */
  lemma {:induction false} TagEditLost()
    ensures var b, a := Providing(Seed(Quoted())), Providing(Seed(Number()));
            Lost(IsSecretPath, Some(Form()), b, Raw(a), a)
  {
    TagsDiffer();
    BareSeed(Quoted(), OVERRIDE);
    BareSeed(Number(), OVERRIDE);
    OneUnseen("seed", Quoted(), Number(), None, OVERRIDE);
    OverrideLost(Seed(Quoted()), Seed(Number()));
  }

  /** Submitted as a document to merge, the same edit does not even reach the candidate. */
  lemma {:induction false} TagEditDropped()
    ensures var b, a := Providing(Seed(Quoted())), Providing(Seed(Number()));
            Candidate(IsSecretPath, Some(Form()), b, Structured(a)) == Ok(b) && Abs(b) != Abs(a)
  {
    var b, a := Providing(Seed(Quoted())), Providing(Seed(Number()));
    TagsDiffer();
    OneUnlike("seed", Quoted(), Number());
    BareSeed(Quoted(), OVERRIDE);
    BareProvider(Seed(Quoted()));
    FormFields();
    ProvidersFacts();
    ProvidingUnlike(Seed(Quoted()), Seed(Number()));
    SeedMerge(Some(Form()), Providers());
    BareMerged(IsSecretPath, Some(Form()), b, a);
  }

  lemma {:induction false} ProvidingUnlike(o: Tree, p: Tree)
    requires Abs(o) != Abs(p)
    ensures Abs(Providing(o)) != Abs(Providing(p))
  {
    var es := [Entry("name", "", Text("p")), Entry("param_override", "", o)];
    ChildOf("name", Text("p"), "param_override", o);
    ChildOf("name", Text("p"), "param_override", p);
    if Abs(Provider(o)) == Abs(Provider(p)) {
      ChildAbs(Provider(o), Provider(p), "param_override");
    }
    OnlyUnlike(Provider(o), Provider(p));
    OneUnlike("providers", Only(Provider(o)), Only(Provider(p)));
  }

  /** A document that merges back into the bare base is accepted as the base. */
  lemma {:induction false} BareMerged(secret: SecretPaths, f: Option<Field>, b: Tree, d: Tree)
    requires Merge(b, d, f, "") == Ok(b) && Bare(secret, b, "")
    ensures Candidate(secret, f, b, Structured(d)) == Ok(b)
  {
    BareSubmit(secret, b, "");
    BareClean(secret, b, "");
    CleanRestore(secret, Some(b), b, f, "");
  }

  lemma {:induction false} SeedMerge(f: Option<Field>, providers: Field)
    requires ChildSchema(f, "providers") == Some(providers) && providers.identity == ["name"]
    ensures Merge(Providing(Seed(Quoted())), Providing(Seed(Number())), f, "") == Ok(Providing(Seed(Quoted())))
  {
    var o, p := Seed(Quoted()), Seed(Number());
    SeedTexts(o, p, providers);
    OneTexts("providers", Only(Provider(o)), Only(Provider(p)), f);
    ProviderKeyed(o, providers);
    TagEditMerges(Providing(o), Providing(p), f, "");
  }

  lemma {:induction false} SeedTexts(o: Tree, p: Tree, providers: Field)
    requires o == Seed(Quoted()) && p == Seed(Number()) && providers.identity == ["name"]
    ensures TextsSame(Only(Provider(o)), Only(Provider(p)), Some(providers))
  {
    forall g ensures TextsSame(o, p, g) {
      OneTexts("seed", Quoted(), Number(), g);
    }
    assert TextsSame(Provider(o), Provider(p), providers.item);
  }

  lemma {:induction false} OneTexts(key: string, v: Tree, w: Tree, f: Option<Field>)
    requires TextsSame(v, w, ChildSchema(f, key))
    ensures TextsSame(One(key, v), One(key, w), f)
  {
  }

  lemma {:induction false} ProviderKeyed(o: Tree, providers: Field)
    requires o == Seed(Quoted()) && providers.identity == ["name"]
    ensures KeysDistinct(Providing(o)) && Keyed(Only(Provider(o)), Some(providers), "providers")
  {
    ProviderSelector(o);
    OneTold(Provider(o), ["name"], "providers");
    assert |"name"| != |"param_override"|;
    assert KeysDistinct(o) && KeysDistinct(Provider(o));
    forall g, path ensures Keyed(o, g, path) {}
    assert Keyed(Provider(o), providers.item, Items("providers"));
  }

  // ---- A literal hidden inside a container ----

  /** A literal inside a container at a secret path is shown hidden, and the document so shown is
      refused when it is submitted unchanged. */
  lemma {:induction false} HiddenInContainerRefused(text: string)
    requires Literal(text) && text != KEEP
    ensures var base := One("admin_key", One("x", Text(text)));
            GoodBase(IsSecretPath, Some(Form()), base)
            && Candidate(IsSecretPath, Some(Form()), base, Raw(Redact(IsSecretPath, base, ""))) == Err(SentinelMisuse)
  {
    InnerRedacted(IsSecretPath, text);
    SchemaIsClear();
    InnerGood(IsSecretPath, Some(Form()), text);
    InnerNotSecret();
    InnerRefused(IsSecretPath, Some(Form()), One("admin_key", One("x", Text(text))));
  }

  lemma {:induction false} InnerGood(secret: SecretPaths, f: Option<Field>, text: string)
    requires ClearAt(secret, f, "") && !ContainerSecret(secret, "") && text != KEEP
    ensures GoodBase(secret, f, One("admin_key", One("x", Text(text))))
  {
    var inner := One("x", Text(text));
    OneClean("x", Text(text));
    OneClean("admin_key", inner);
    assert KeysDistinct(inner) && Keyed(inner, ChildSchema(f, "admin_key"), "admin_key");
  }

  lemma {:induction false} OneClean(key: string, v: Tree)
    ensures HasSentinel(One(key, v)) <==> HasSentinel(v)
  {
    assert One(key, v).entries[0].value == v;
  }

  lemma {:induction false} InnerNotSecret()
    ensures !IsSecretPath(Join("admin_key", "x"))
  {
    assert |Join("admin_key", "x")| == 11;
  }

  lemma {:induction false} InnerRefused(secret: SecretPaths, f: Option<Field>, base: Tree)
    requires !secret(Join("admin_key", "x"))
    ensures Candidate(secret, f, base, Raw(One("admin_key", One("x", Text(KEEP))))) == Err(SentinelMisuse)
  {
    var inner := One("x", Text(KEEP));
    var shown := One("admin_key", inner);
    assert Join("", "admin_key") == "admin_key";
    forall inside ensures SubmitError(secret, inner, "admin_key", inside) == Some(SentinelMisuse) {
      var below := inside || ContainerSecret(secret, "admin_key");
      assert SubmitError(secret, Text(KEEP), Join("admin_key", "x"), below) == Some(SentinelMisuse);
    }
    assert SubmitError(secret, shown, "", false) == Some(SentinelMisuse);
  }

  lemma {:induction false} InnerRedacted(secret: SecretPaths, text: string)
    requires secret("admin_key") && Literal(text)
    ensures Redact(secret, One("admin_key", One("x", Text(text))), "") == One("admin_key", One("x", Text(KEEP)))
  {
    var inner := One("x", Text(text));
    assert MaskAll(inner).entries == [Entry("x", "", Text(KEEP))];
    assert Redact(secret, One("admin_key", inner), "").entries == [Entry("admin_key", "", MaskAll(inner))];
  }

  // ---- A half-way commit ----

  /** A file that sets nothing but the price source. */
  function Sync(v: string): Tree {
    One("pricing_sync", Text(v))
  }

  /** A reading of such files, written as their one value. */
  function SyncReading(): SL.Reading {
    SL.Reading(IsSecretPath, Some(Form()), v => Some(Sync(v)),
               t => match Child(t, "pricing_sync") { case None => None case Some(v) => Some(NodeText(v)) },
               v => Some(CS.Config("", "", "", "", v)), v => v)
  }

  lemma {:induction false} BareSync(v: string)
    requires v != KEEP
    ensures Bare(IsSecretPath, Sync(v), "")
  {
    HarmlessNotSecret("pricing_sync");
    HarmlessNotSecret("[]");
    assert Join("", "pricing_sync") == "pricing_sync" && Items("") == "[]" && !IsSecretPath("");
    BareOne(IsSecretPath, "pricing_sync", Text(v), "");
  }

  /** The edit from one such file to another is accepted and seen. */
  lemma {:induction false} SyncEdit(v: string, w: string)
    requires v != w && v != KEEP && w != KEEP
    ensures Candidate(IsSecretPath, Some(Form()), Sync(v), Raw(Sync(w))) == Ok(Sync(w))
    ensures Changes(IsSecretPath, Some(Form()), Sync(v), Sync(w)) != []
  {
    BareSync(v);
    BareSync(w);
    NoWildcards();
    OneEdit(IsSecretPath, Some(Form()), "pricing_sync", v, w);
  }

  lemma {:induction false} OneEdit(secret: SecretPaths, f: Option<Field>, key: string, v: string, w: string)
    requires v != w && RestartLaws.FieldName(key) && NoSecretWildcards(secret)
    requires Bare(secret, One(key, Text(v)), "") && Bare(secret, One(key, Text(w)), "")
    ensures Candidate(secret, f, One(key, Text(v)), Raw(One(key, Text(w)))) == Ok(One(key, Text(w)))
    ensures Changes(secret, f, One(key, Text(v)), One(key, Text(w))) != []
  {
    BareAccepted(secret, f, One(key, Text(v)), One(key, Text(w)));
    BareRedact(secret, One(key, Text(v)), "");
    BareRedact(secret, One(key, Text(w)), "");
    OneReported(key, v, w, f);
  }

  /** So it is planned as written. */
  lemma {:induction false} SyncPlanned(v: string, w: string, candidate: string)
    requires v != w && v != KEEP && w != KEEP
    ensures var plan := SL.Validate(SyncReading(), v, CS.Request(v, Ok(Raw(Sync(w))), candidate));
            plan.Ok? && plan.value.bytes == w && plan.value.config == CS.Config("", "", "", "", w)
  {
    SyncEdit(v, w);
    ChildOf("pricing_sync", Text(w), "", Text(w));
    SL.PlannedFor(SyncReading(), v, CS.Request(v, Ok(Raw(Sync(w))), candidate), Sync(v), Sync(w));
  }

  lemma {:induction false} OneReported(key: string, v: string, w: string, f: Option<Field>)
    requires v != w && RestartLaws.FieldName(key)
    ensures SemanticDiff(One(key, Text(v)), One(key, Text(w)), f) != []
  {
    ChildOf(key, Text(v), "", Text(v));
    ChildOf(key, Text(w), "", Text(w));
    RestartLaws.FieldReported(One(key, Text(v)), One(key, Text(w)), f, key);
  }

  /** A commit whose apply and restoring write both fail leaves the file with a configuration that the
      runtime does not run. */
  lemma {:induction false} HalfwayCanDisagree(v: string, w: string)
    requires v != w && v != KEEP && w != KEEP
    ensures var env, s := SL.EnvOf(SyncReading()), CS.Snap(v, CS.Config("", "", "", "", v), 0, {0}, 1);
            var req, luck := CS.Request(v, Ok(Raw(Sync(w))), w), CS.Luck(true, true, true, false, false);
            CS.Faithful(env) && CS.Injective(env) && CS.Started(env, s) && CS.Agree(env, s, s.active) &&
            CS.Verdict(env, s, req, luck) == CS.ApplyFailed(false) &&
            !CS.Agree(env, CS.After(env, s, req, luck), s.active)
  {
    SL.ValidateIsFaithful(SyncReading());
    SyncPlanned(v, w, w);
  }
}
