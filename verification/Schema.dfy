/** The parts of the form schema the edit engine reads, secret paths and env references. */
module Schema {
  import opened Wrappers
  import opened Trees

  /** A schema node: its name, the identity keys of a list, its children in declared order and
      the schema of its list items. */
  datatype Field = Field(name: string, identity: seq<string>, children: seq<Field>, item: Option<Field>)

  /** Which wildcard paths hold secrets (`IsSecretPath`). */
  type SecretPaths = string -> bool

  const KEEP := "__TOKENROUTE_KEEP_SECRET__"

  function Join(path: string, key: string): string {
    if path == "" then key else path + "." + key
  }

  function Items(path: string): string {
    path + "[]"
  }

  /** The wildcard path of child `i` of a node at `path`. */
  function ChildPath(t: Tree, path: string, i: nat): string
    requires i < |Children(t)|
  {
    if t.Mapping? then Join(path, t.entries[i].key) else Items(path)
  }

  function FindChild(cs: seq<Field>, key: string): Option<Field> {
    if cs == [] then None else if cs[0].name == key then Some(cs[0]) else FindChild(cs[1..], key)
  }

  function ChildSchema(f: Option<Field>, key: string): (r: Option<Field>)
    ensures f.None? ==> r.None?
  {
    if f.None? then None else FindChild(f.value.children, key)
  }

  function ItemSchema(f: Option<Field>): Option<Field> {
    if f.None? then None else f.value.item
  }

  function IdentityKeys(f: Option<Field>): seq<string> {
    if f.None? then [] else f.value.identity
  }

  predicate NameStart(c: char) {
    'A' <= c <= 'Z' || 'a' <= c <= 'z' || c == '_'
  }

  predicate IsName(s: string) {
    s != [] && NameStart(s[0]) && forall i | 0 <= i < |s| :: NameStart(s[i]) || '0' <= s[i] <= '9'
  }

  /** A whole scalar that is exactly `$NAME` or `${NAME}`. */
  predicate IsEnvRef(s: string) {
    |s| >= 2 && s[0] == '$' &&
    (IsName(s[1..]) || (|s| >= 4 && s[1] == '{' && s[|s| - 1] == '}' && IsName(s[2..|s| - 1])))
  }

  /** Text that redaction hides: neither empty nor an env reference. */
  predicate Literal(s: string) {
    s != "" && !IsEnvRef(s)
  }
}
