/** The gateway's own secrets and keyed lists meet what the edit laws ask of a schema. */
module ShippedSchema {
  import opened Wrappers
  import opened Schema
  import opened Redaction
  import opened Masking
  import opened NoOpLaws
  import opened Trees
  import opened Identity
  import opened Restoring
  import opened EditLaws

  const SECRETS := {"admin_key", "providers[].api_key", "providers[].api_keys[]", "search[].api_key",
    "search[].api_keys[]"}

  function IsSecretPath(p: string): bool {
    p in SECRETS
  }

  function Leaf(name: string): Field {
    Field(name, [], [], None)
  }

  function ListOf(name: string, identity: seq<string>, children: seq<Field>): Field {
    Field(name, identity, [], Some(Field(name, [], children, None)))
  }

  /** A list of plain texts. */
  function Texts(name: string): Field {
    Field(name, [], [], Some(Leaf(name)))
  }

  function Providers(): Field {
    ListOf("providers", ["name"], [Leaf("name"), Leaf("type"), Leaf("api_key"), Texts("api_keys")])
  }

  function Candidates(): Field {
    ListOf("candidates", ["provider", "model"], [Leaf("provider"), Leaf("model")])
  }

  function Routes(): Field {
    ListOf("routes", ["model"], [Leaf("model"), Leaf("strategy"), Candidates()])
  }

  function FreeTier(): Field {
    ListOf("free_tier", ["provider", "model"], [Leaf("provider"), Leaf("model")])
  }

  function FailureRules(): Field {
    ListOf("failure_rules", ["match", "status"], [Leaf("match"), Leaf("status")])
  }

  function Search(): Field {
    ListOf("search", ["backend"], [Leaf("backend"), Leaf("api_key"), Texts("api_keys")])
  }

  /** The form schema, cut down to bootstrap fields, secrets and keyed lists. */
  function Form(): Field {
    Field("config", [],
          [Leaf("listen"), Leaf("admin_listen"), Leaf("usage_db"), Leaf("admin_key"), Providers(), Routes(), FreeTier(),
           FailureRules(), Search()],
          None)
  }

  lemma {:induction false} NoWildcards()
    ensures NoSecretWildcards(IsSecretPath)
  {
    forall p: string ensures !IsSecretPath(p + ".*") {
      var q := p + ".*";
      assert q[|q| - 1] == '*';
    }
  }

  /** Enough of a path to see that it is none of the five. */
  predicate Harmless(p: string) {
    p != "" && p[0] != 'a' && (p[0] == 'p' ==> |p| != 19 && |p| != 22) &&
    (p[0] == 's' ==> |p| != 19 && (|p| == 16 ==> p[9] != 'a'))
  }

  lemma {:induction false} HarmlessNotSecret(p: string)
    requires Harmless(p)
    ensures !IsSecretPath(p)
  {
    assert |"providers[].api_key"| == 19 && |"providers[].api_keys[]"| == 22;
    assert |"search[].api_key"| == 16 && "search[].api_key"[9] == 'a' && |"search[].api_keys[]"| == 19;
  }

  lemma {:induction false} LeafClear(name: string, wild: string)
    ensures Clear(IsSecretPath, Leaf(name), wild) && NoKeys(Leaf(name))
    ensures Clear(IsSecretPath, Texts(name), wild) && NoKeys(Texts(name))
  {
  }

  /** The schema of a keyed list's items. */
  lemma {:induction false} ItemClear(item: Field, wild: string)
    requires item.identity == [] && item.item.None? && !ContainerSecret(IsSecretPath, wild)
    requires forall i | 0 <= i < |item.children| ::
             Clear(IsSecretPath, item.children[i], Join(wild, item.children[i].name))
    ensures Clear(IsSecretPath, item, wild)
  {
  }

  predicate IsLeaf(f: Field) {
    f == Leaf(f.name) || f == Texts(f.name)
  }

  /** A keyed list whose paths are harmless. */
  lemma {:induction false} ListClear(f: Field, item: Field, wild: string)
    requires f.identity != [] && f.children == [] && f.item == Some(item) && item.identity == [] && item.item.None?
    requires Harmless(wild) && Harmless(Items(wild)) && Harmless(Items(Items(wild)))
    requires forall k | k in f.identity + ["match", "status"] :: Harmless(Join(Items(wild), k))
    requires forall i | 0 <= i < |item.children| ::
      IsLeaf(item.children[i]) || Clear(IsSecretPath, item.children[i], Join(Items(wild), item.children[i].name))
    ensures Clear(IsSecretPath, f, wild)
  {
    HarmlessNotSecret(wild);
    HarmlessNotSecret(Items(wild));
    HarmlessNotSecret(Items(Items(wild)));
    NoWildcards();
    assert !IsSecretPath(Items(wild) + ".*");
    forall k | k in f.identity + ["match", "status"] ensures !IsSecretPath(Join(Items(wild), k)) {
      HarmlessNotSecret(Join(Items(wild), k));
    }
    forall i | 0 <= i < |item.children|
      ensures Clear(IsSecretPath, item.children[i], Join(Items(wild), item.children[i].name))
    {
      LeafClear(item.children[i].name, Join(Items(wild), item.children[i].name));
    }
    ItemClear(item, Items(wild));
  }

  lemma {:induction false} ProvidersClear()
    ensures Clear(IsSecretPath, Providers(), "providers")
  {
    ListClear(Providers(), Providers().item.value, "providers");
  }

  lemma {:induction false} CandidatesClear()
    ensures Clear(IsSecretPath, Candidates(), "routes[].candidates")
  {
    ListClear(Candidates(), Candidates().item.value, "routes[].candidates");
  }

  lemma {:induction false} RoutesClear()
    ensures Clear(IsSecretPath, Routes(), "routes")
  {
    CandidatesClear();
    assert Join(Items("routes"), "candidates") == "routes[].candidates";
    ListClear(Routes(), Routes().item.value, "routes");
  }

  lemma {:induction false} FreeTierClear()
    ensures Clear(IsSecretPath, FreeTier(), "free_tier")
  {
    ListClear(FreeTier(), FreeTier().item.value, "free_tier");
  }

  lemma {:induction false} FailureRulesClear()
    ensures Clear(IsSecretPath, FailureRules(), "failure_rules")
  {
    ListClear(FailureRules(), FailureRules().item.value, "failure_rules");
  }

  lemma {:induction false} SearchClear()
    ensures Clear(IsSecretPath, Search(), "search")
  {
    ListClear(Search(), Search().item.value, "search");
  }

  /** What the edit laws require of schema and secrets holds for the gateway's own. */
  lemma {:induction false} SchemaIsClear()
    ensures Clear(IsSecretPath, Form(), "") && NoSecretWildcards(IsSecretPath) && !ContainerSecret(IsSecretPath, "")
  {
    NoWildcards();
    ProvidersClear();
    RoutesClear();
    FreeTierClear();
    FailureRulesClear();
    SearchClear();
    var cs := Form().children;
    forall i | 0 <= i < |cs| ensures Clear(IsSecretPath, cs[i], Join("", cs[i].name)) {
      if i < 4 {
        LeafClear(cs[i].name, cs[i].name);
      }
    }
  }

  /** So the edit laws hold for every file with distinct keys, identified list items and no sentinel
      text; nothing is asked of the schema any more. */
  lemma {:induction false} GoodBaseHere(base: Tree)
    ensures var form := Some(Form());
            GoodBase(IsSecretPath, form, base)
            <==> base.Mapping? && KeysDistinct(base) && Keyed(base, form, "") && !HasSentinel(base)
  {
    SchemaIsClear();
  }
}
