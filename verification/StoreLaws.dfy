/** What the edit laws mean for a commit. */
module StoreLaws {
  import opened Wrappers
  import opened Trees
  import opened Schema
  import opened Redaction
  import opened Merging
  import opened Restoring
  import opened Masking
  import opened Diffing
  import opened EditLaws
  import opened NoOpLaws
  import opened RestartLaws
  import opened ConfigStore

  /** Schema, YAML reading and writing, decoding, hashing. */
  datatype Reading = Reading(
    secret: SecretPaths,
    form: Option<Field>,
    parse: string -> Option<Tree>,
    encode: Tree -> Option<string>,
    decode: string -> Option<Config>,
    revision: string -> string)

  const BOOTSTRAP := ["listen", "admin_listen", "usage_db", "admin_key"]

  predicate IsBootstrap(path: string) {
    path in BOOTSTRAP
  }

  /** `validateAgainst`: the candidate bytes and configuration for an edit of `raw`. The old bytes
      are kept when the change list is empty. */
  function Validate(r: Reading, raw: string, req: Request): Result<Plan, Fault> {
    if req.expected != r.revision(raw) then Err(Stale)
    else if r.parse(raw).None? then Err(NotYaml)
    else if req.edit.Err? then Err(BadEdit(req.edit.error))
    else
      var base := r.parse(raw).value;
      var cand := Candidate(r.secret, r.form, base, req.edit.value);
      if cand.Err? then Err(BadEdit(cand.error)) else Planned(r, raw, base, cand.value)
  }

  /** The plan for an accepted candidate. */
  function Planned(r: Reading, raw: string, base: Tree, cand: Tree): Result<Plan, Fault> {
    if r.encode(cand).None? then Err(NotEncodable)
    else
      var bytes := r.encode(cand).value;
      if r.decode(bytes).None? then Err(NotDecodable)
      else
        var changes := Changes(r.secret, r.form, base, cand);
        Ok(Plan(if changes == [] then raw else bytes, r.decode(bytes).value,
                exists ch | ch in changes :: IsBootstrap(ch.path)))
  }

  lemma {:induction false} PlannedFor(r: Reading, raw: string, req: Request, base: Tree, cand: Tree)
    requires req.expected == r.revision(raw) && r.parse(raw) == Some(base) && req.edit.Ok?
    requires Candidate(r.secret, r.form, base, req.edit.value) == Ok(cand)
    ensures Validate(r, raw, req) == Planned(r, raw, base, cand)
  {
  }

  /** The transaction with this validation. */
  function EnvOf(r: Reading): Env {
    Env(r.decode, r.revision, (raw, req) => Validate(r, raw, req))
  }

  /** Validation against the edit engine meets what the transaction's laws ask of it. */
  lemma {:induction false} ValidateIsFaithful(r: Reading)
    ensures Faithful(EnvOf(r))
  {
    forall raw: string, req: Request ensures PlanFaithful(EnvOf(r), raw, req) {
      PlanDecodes(r, raw, req);
    }
  }

  lemma {:induction false} PlanDecodes(r: Reading, raw: string, req: Request)
    ensures var plan := Validate(r, raw, req);
            plan.Ok? && plan.value.bytes != raw ==> r.decode(plan.value.bytes) == Some(plan.value.config)
  {
  }

  /** The request submits what the file says, secrets masked and mapping keys in any order. */
  ghost predicate SubmitsWhatWasRead(r: Reading, raw: string, req: Request) {
    r.parse(raw).Some? && req.edit.Ok? &&
    var base := r.parse(raw).value;
    GoodBase(r.secret, r.form, base) && KeysDistinct(req.edit.value.doc) &&
    Abs(req.edit.value.doc) == Abs(Redact(r.secret, base, ""))
  }

  /** Validating what was read plans the old bytes, without restart, or fails; it fails as a bad edit
      when a hidden scalar is not itself at a secret path. */
  lemma {:induction false} ValidatingWhatWasRead(r: Reading, raw: string, req: Request)
    requires SubmitsWhatWasRead(r, raw, req)
    ensures var plan := Validate(r, raw, req); plan.Ok? ==> plan.value.bytes == raw && !plan.value.restart
    ensures var hidden := Redact(r.secret, r.parse(raw).value, "");
            req.expected == r.revision(raw)
            ==> (Validate(r, raw, req).Err? && Validate(r, raw, req).error.BadEdit?
                 <==> !KeepsOnSecretPaths(r.secret, hidden, ""))
  {
    var base := r.parse(raw).value;
    RoundTrip(r.secret, r.form, base, req.edit.value);
    PlanOf(r, raw, req, KeepsOnSecretPaths(r.secret, Redact(r.secret, base, ""), ""));
  }

  /** Validation when the candidate exists exactly if `ok` and brings no change. */
  lemma {:induction false} PlanOf(r: Reading, raw: string, req: Request, ok: bool)
    requires r.parse(raw).Some? && req.edit.Ok?
    requires var cand := Candidate(r.secret, r.form, r.parse(raw).value, req.edit.value);
             cand.Ok? == ok && (ok ==> Changes(r.secret, r.form, r.parse(raw).value, cand.value) == [])
    ensures var plan := Validate(r, raw, req);
            (plan.Ok? ==> plan.value.bytes == raw && !plan.value.restart)
            && (req.expected == r.revision(raw) ==> (plan.Err? && plan.error.BadEdit? <==> !ok))
  {
  }

  /** Saving what was read never changes file or runtime, whatever else happens. */
  lemma {:induction false} SavingWhatWasRead(r: Reading, s: Snap, req: Request, luck: Luck)
    requires SubmitsWhatWasRead(r, s.file, req)
    ensures After(EnvOf(r), s, req, luck) == s
    ensures !Wrote(Verdict(EnvOf(r), s, req, luck))
  {
    ValidatingWhatWasRead(r, s.file, req);
  }

  /** The accepted candidate of a request, and the base it edits. */
  ghost predicate Accepts(r: Reading, raw: string, req: Request, base: Tree, cand: Tree) {
    Validate(r, raw, req).Ok? && r.parse(raw) == Some(base)
    && Candidate(r.secret, r.form, base, req.edit.value) == Ok(cand)
  }

  /** What a plan keeps, for every accepted request on a sound file: with changes it holds the
      candidate's encoding, and the candidate means something else than the file; without changes it
      holds the old bytes, and they mean what was submitted unless the edit sits in a blind spot. */
  lemma {:induction false} KeptBytesExactly(r: Reading, raw: string, req: Request, base: Tree, cand: Tree)
    requires Accepts(r, raw, req, base, cand)
    requires GoodBase(r.secret, r.form, base) && NoSecretWildcards(r.secret) && KeysDistinct(req.edit.value.doc)
    ensures var bytes := Validate(r, raw, req).value.bytes;
            var blind := Blind(Redact(r.secret, base, ""), Redact(r.secret, cand, ""), r.form, "");
            if Changes(r.secret, r.form, base, cand) == [] then bytes == raw && (Abs(cand) == Abs(base) <==> !blind)
            else r.encode(cand) == Some(bytes) && Abs(cand) != Abs(base)
  {
    PlannedBytes(r, raw, req, base, cand);
    UnchangedExactly(r.secret, r.form, base, req.edit.value);
  }

  lemma {:induction false} PlannedBytes(r: Reading, raw: string, req: Request, base: Tree, cand: Tree)
    requires Accepts(r, raw, req, base, cand)
    ensures var bytes := Validate(r, raw, req).value.bytes;
            if Changes(r.secret, r.form, base, cand) == [] then bytes == raw else r.encode(cand) == Some(bytes)
  {
  }

  /** The four bootstrap fields hold scalars or nothing. */
  ghost predicate BootstrapScalars(t: Tree) {
    forall k | k in BOOTSTRAP :: ScalarAt(t, k)
  }

  lemma {:induction false} BootstrapNames(k: string)
    requires k in BOOTSTRAP
    ensures FieldName(k)
  {
    assert k == "listen" || k == "admin_listen" || k == "usage_db" || k == "admin_key";
  }

  /** A top-level field of a redacted document. */
  lemma {:induction false} RedactedField(secret: SecretPaths, t: Tree, key: string)
    requires t.Mapping? && Distinct(t.entries)
    ensures var m := Redact(secret, t, "");
            m.Mapping? && Distinct(m.entries) && Keys(m.entries) == Keys(t.entries) &&
            (ScalarAt(t, key) ==> ScalarAt(m, key))
    ensures Child(Redact(secret, t, ""), key) == Shown(secret, Child(t, key), key)
  {
    var m := Redact(secret, t, "");
    MasksKeys(t.entries, m.entries);
    if key in Keys(t.entries) {
      var i := IndexOf(t.entries, key);
      FieldAt(m.entries, i);
    }
  }

  /** A top-level field of a restored document comes from the submitted field and the base's. */
  lemma {:induction false} FieldWalked(secret: SecretPaths, base: Tree, c: Tree, f: Option<Field>, key: string)
    requires base.Mapping? && c.Mapping? && RestoreWalk(secret, Some(base), c, f, "").Ok? && key in Keys(c.entries)
    ensures var r := RestoreWalk(secret, Some(base), c, f, "").value;
            Child(r, key).Some? &&
            RestoreWalk(secret, Child(base, key), Under(c.entries, key), ChildSchema(f, key), key) ==
              Ok(Child(r, key).value)
  {
    var r := RestoreWalk(secret, Some(base), c, f, "").value;
    WalkKeepsKeys(secret, Some(base), c, f, "");
    MasksKeys(c.entries, r.entries);
    var i := IndexOf(c.entries, key);
    RestoreChild(secret, Some(base), c, f, "", i);
    assert Children(c)[i] == Under(c.entries, key) && Children(r)[i] == Under(r.entries, key);
  }

  /** A literal that stands at a secret path after restoring is the base's. */
  lemma {:induction false} SecretScalarKept(secret: SecretPaths, cur: Option<Tree>, c: Tree, f: Option<Field>,
                                            wild: string, inside: bool)
    requires SubmitError(secret, c, wild, inside).None? && secret(wild) && RestoreWalk(secret, cur, c, f, wild).Ok?
    ensures var r := RestoreWalk(secret, cur, c, f, wild).value;
            r.Scalar? && Literal(r.text) ==> cur.Some? && cur.value.Scalar? && cur.value.text == r.text
  {
  }

  lemma {:induction false} SecretFieldKept(secret: SecretPaths, base: Tree, c: Tree, f: Option<Field>, key: string)
    requires base.Mapping? && SubmitError(secret, c, "", false).None? && secret(key)
    requires RestoreWalk(secret, Some(base), c, f, "").Ok?
    ensures var y := Child(RestoreWalk(secret, Some(base), c, f, "").value, key);
            y.Some? && y.value.Scalar? && Literal(y.value.text)
            ==> Child(base, key).Some? && Child(base, key).value.Scalar? && Child(base, key).value.text == y.value.text
  {
    if c.Mapping? && key in Keys(c.entries) {
      FieldWalked(secret, base, c, f, key);
      SubmitUnder(secret, c, "", false);
      SecretScalarKept(secret, Child(base, key), Under(c.entries, key), ChildSchema(f, key), key,
                       ContainerSecret(secret, ""));
    } else if c.Mapping? {
      RestoredKeys(secret, base, c, f, "");
    }
  }

  /** A field as redaction shows it. */
  function Shown(secret: SecretPaths, x: Option<Tree>, key: string): Option<Tree> {
    match x case None => None case Some(v) => Some(RedactValue(secret, v, key))
  }

  /** Redaction hides no difference when a literal is hidden only where the other field has it too. */
  lemma {:induction false} ShownDiffer(secret: SecretPaths, x: Option<Tree>, y: Option<Tree>, key: string)
    requires x.Some? && x.value.Scalar? ==> x.value.text != KEEP
    requires y.Some? ==> y.value.Scalar? && y.value.text != KEEP
    requires secret(key) && y.Some? && Literal(y.value.text)
             ==> x.Some? && x.value.Scalar? && x.value.text == y.value.text
    ensures FieldsDiffer(Shown(secret, x, key), Shown(secret, y, key)) <==> FieldsDiffer(x, y)
  {
    if x.Some? && !x.value.Scalar? {
      assert !RedactValue(secret, x.value, key).Scalar?;
    }
  }

  /** A top-level scalar field of an accepted candidate differs from the base's exactly when the
      redacted documents differ there. */
  lemma {:induction false} DiffersUnmasked(r: Reading, base: Tree, edit: Edit, key: string)
    requires KeysDistinct(base) && !HasSentinel(base) && KeysDistinct(edit.doc)
    requires Candidate(r.secret, r.form, base, edit).Ok?
    requires var cand := Candidate(r.secret, r.form, base, edit).value;
             base.Mapping? && Named(cand) && ScalarAt(cand, key)
    ensures var cand := Candidate(r.secret, r.form, base, edit).value;
            Differs(Redact(r.secret, base, ""), Redact(r.secret, cand, ""), key) <==> Differs(base, cand, key)
  {
    var cand := Candidate(r.secret, r.form, base, edit).value;
    RedactedField(r.secret, base, key);
    RedactedField(r.secret, cand, key);
    if r.secret(key) {
      var c := Accepted(r.secret, r.form, base, edit);
      SecretFieldKept(r.secret, base, c, r.form, key);
    }
    NoSentinelField(base, key);
    CandidateClean(r.secret, r.form, base, edit);
    NoSentinelField(cand, key);
    ShownDiffer(r.secret, Child(base, key), Child(cand, key), key);
  }

  lemma {:induction false} CandidateClean(secret: SecretPaths, f: Option<Field>, base: Tree, edit: Edit)
    requires Candidate(secret, f, base, edit).Ok?
    ensures !HasSentinel(Candidate(secret, f, base, edit).value)
  {
  }

  lemma {:induction false} NoSentinelField(t: Tree, key: string)
    requires t.Mapping? && !HasSentinel(t)
    ensures Child(t, key).Some? && Child(t, key).value.Scalar? ==> Child(t, key).value.text != KEEP
  {
    if key in Keys(t.entries) {
      assert !HasSentinel(t.entries[IndexOf(t.entries, key)].value);
    }
  }

  /** A plan asks for a restart exactly when a bootstrap field was added, removed or got another kind or
      text, a hidden one included. */
  lemma {:induction false} RestartExact(r: Reading, raw: string, req: Request, base: Tree, cand: Tree)
    requires Accepts(r, raw, req, base, cand)
    requires KeysDistinct(base) && !HasSentinel(base) && KeysDistinct(req.edit.value.doc)
    requires base.Mapping? && Named(cand) && BootstrapScalars(cand)
    ensures Validate(r, raw, req).value.restart <==> exists k | k in BOOTSTRAP :: Differs(base, cand, k)
  {
    var changes := Changes(r.secret, r.form, base, cand);
    forall k | k in BOOTSTRAP ensures Reported(changes, k) <==> Differs(base, cand, k) {
      BootstrapNames(k);
      RedactedField(r.secret, base, k);
      RedactedField(r.secret, cand, k);
      FieldReported(Redact(r.secret, base, ""), Redact(r.secret, cand, ""), r.form, k);
      DiffersUnmasked(r, base, req.edit.value, k);
    }
    RestartIsReported(r, raw, req);
  }

  lemma {:induction false} RestartIsReported(r: Reading, raw: string, req: Request)
    requires Validate(r, raw, req).Ok?
    ensures var base := r.parse(raw).value;
            var changes := Changes(r.secret, r.form, base, Candidate(r.secret, r.form, base, req.edit.value).value);
            Validate(r, raw, req).value.restart <==> exists k | k in BOOTSTRAP :: Reported(changes, k)
  {
  }
}
