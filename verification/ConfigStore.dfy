/** The transaction around a configuration edit: file, running configuration and background workers
    under admin commits, with every write and every build allowed to fail. */
module ConfigStore {
  import opened Wrappers
  import opened Merging
  import opened EditLaws

  /** A decoded configuration: the four bootstrap fields, and everything else. */
  datatype Config = Config(listen: string, adminListen: string, usageDb: string, adminKey: string, rest: string)

  /** A commit request. `edit` is what the submitted document parses to. */
  datatype Request = Request(expected: string, edit: Result<Edit, Code>, candidate: string)

  datatype Fault = Stale | NotYaml | BadEdit(code: Code) | NotEncodable | NotDecodable

  /** Candidate bytes, the candidate configuration, and whether bootstrap fields changed. */
  datatype Plan = Plan(bytes: string, config: Config, restart: bool)

  /** What stays constant: decoding, hashing, and validation of a request against file bytes. */
  datatype Env = Env(
    decode: string -> Option<Config>,
    revision: string -> string,
    validate: (string, Request) -> Result<Plan, Fault>)

  /** The hash is treated as injective. */
  ghost predicate Injective(env: Env) {
    forall a, b :: env.revision(a) == env.revision(b) ==> a == b
  }

  /** Validation plans new bytes only together with what they decode to. */
  ghost predicate Faithful(env: Env) {
    forall raw: string, req: Request :: PlanFaithful(env, raw, req)
  }

  ghost predicate PlanFaithful(env: Env, raw: string, req: Request) {
    var plan := env.validate(raw, req);
    plan.Ok? && plan.value.bytes != raw ==> env.decode(plan.value.bytes) == Some(plan.value.config)
  }

  /** Which of the fallible steps of one commit succeed. */
  datatype Luck = Luck(read: bool, backup: bool, write: bool, build: bool, restore: bool)

  datatype Outcome =
    | ReadFailed
    | Conflict
    | Invalid(fault: Fault)
    | CandidateChanged
    | Unchanged
    | BackupFailed
    | WriteFailed
    | ApplyFailed(restored: bool)
    | Applied

  /** `overlayRestartFields`. */
  function Overlay(candidate: Config, active: Config): Config {
    candidate.(listen := active.listen, adminListen := active.adminListen,
               usageDb := active.usageDb, adminKey := active.adminKey)
  }

  /** File bytes, running configuration, the running state's worker context, the contexts not yet
      cancelled, and the next fresh context. */
  datatype Snap = Snap(file: string, active: Config, current: nat, live: set<nat>, next: nat)

  /** The outcome of a commit. */
  function Verdict(env: Env, s: Snap, req: Request, luck: Luck): Outcome {
    var plan := env.validate(s.file, req);
    if !luck.read then ReadFailed
    else if env.revision(s.file) != req.expected then Conflict
    else if plan.Err? then Invalid(plan.error)
    else if env.revision(plan.value.bytes) != req.candidate then CandidateChanged
    else if plan.value.bytes == s.file then Unchanged
    else if !luck.backup then BackupFailed
    else if !luck.write then WriteFailed
    else if !luck.build then ApplyFailed(luck.restore)
    else Applied
  }

  /** The state after a commit. */
  function After(env: Env, s: Snap, req: Request, luck: Luck): Snap {
    var out := Verdict(env, s, req, luck);
    if out.Applied? then
      var plan := env.validate(s.file, req).value;
      Snap(plan.bytes, Overlay(plan.config, s.active), s.next, s.live + {s.next} - {s.current}, s.next + 1)
    else if out == ApplyFailed(false) then
      s.(file := env.validate(s.file, req).value.bytes)
    else s
  }

  // ---- The objects ----

  /** `runtimeReloader`. A background worker set is named by its context. */
  class Runtime {
    var active: Config
    var current: nat
    var live: set<nat>
    var next: nat

    constructor (config: Config)
      ensures active == config && current == 0 && live == {0} && next == 1
    {
      active, current, live, next := config, 0, {0}, 1;
    }

    /** `Apply`. `admin` says that the restart list is not nil, `built` whether the new state can
        be built. The new workers start before the swap and the old ones are cancelled after it. */
    method Apply(persisted: Config, admin: bool, built: bool) returns (ok: bool)
      requires current < next
      modifies this
      ensures ok == built && current < next
      ensures ok ==> active == (if admin then Overlay(persisted, old(active)) else persisted)
      ensures ok ==> current == old(next) && live == old(live) + {current} - {old(current)} && next == current + 1
      ensures !ok ==> active == old(active) && current == old(current) && live == old(live) && next == old(next)
    {
      var effective := persisted;
      if admin {
        effective := Overlay(persisted, active);
      }
      if !built {
        return false;
      }
      var prev := current;
      var workers := next;
      next := next + 1;
      live := live + {workers};
      current := workers;
      active := effective;
      live := live - {prev};
      ok := true;
    }
  }

  /** The store and the runtime it applies to. */
  class Store {
    const env: Env
    const runtime: Runtime
    var file: string

    constructor (env: Env, runtime: Runtime, file: string)
      ensures this.env == env && this.runtime == runtime && this.file == file
    {
      this.env, this.runtime, this.file := env, runtime, file;
    }

    function State(): Snap
      reads this, runtime
    {
      Snap(file, runtime.active, runtime.current, runtime.live, runtime.next)
    }

    /** `Commit`: one critical section. */
    method Commit(req: Request, luck: Luck) returns (out: Outcome)
      requires runtime.current < runtime.next
      modifies this, runtime
      ensures out == Verdict(env, old(State()), req, luck)
      ensures State() == After(env, old(State()), req, luck) && runtime.current < runtime.next
    {
      if !luck.read {
        return ReadFailed;
      }
      var current := file;
      if env.revision(current) != req.expected {
        return Conflict;
      }
      var plan := env.validate(current, req);
      if plan.Err? {
        return Invalid(plan.error);
      }
      if env.revision(plan.value.bytes) != req.candidate {
        return CandidateChanged;
      }
      if current == plan.value.bytes {
        return Unchanged;
      }
      if !luck.backup {
        return BackupFailed;
      }
      if !luck.write {
        return WriteFailed;
      }
      file := plan.value.bytes;
      var applied := runtime.Apply(plan.value.config, true, luck.build);
      if !applied {
        if luck.restore {
          file := current;
        }
        return ApplyFailed(luck.restore);
      }
      return Applied;
    }
  }

  // ---- Runs ----

  datatype Step = Step(req: Request, luck: Luck)

  /** The state before commit `n` of a run. */
  function At(env: Env, s: Snap, run: seq<Step>, n: nat): Snap
    requires n <= |run|
  {
    if n == 0 then s else After(env, At(env, s, run, n - 1), run[n - 1].req, run[n - 1].luck)
  }

  function OutcomeAt(env: Env, s: Snap, run: seq<Step>, n: nat): Outcome
    requires n < |run|
  {
    Verdict(env, At(env, s, run, n), run[n].req, run[n].luck)
  }

  /** A started gateway: the file decodes to the running configuration, one worker context. */
  ghost predicate Started(env: Env, s: Snap) {
    env.decode(s.file) == Some(s.active) && s.live == {s.current} && s.current < s.next
  }

  /** Disk and runtime agree: the running configuration is the decoded file with the bootstrap
      fields of `boot`. */
  ghost predicate Agree(env: Env, s: Snap, boot: Config) {
    env.decode(s.file).Some? && s.active == Overlay(env.decode(s.file).value, boot)
  }

  /** A commit that is neither applied nor left half-way changes nothing at all. */
  lemma FailureKeepsAll(env: Env, s: Snap, req: Request, luck: Luck)
    requires var out := Verdict(env, s, req, luck); out != Applied && out != ApplyFailed(false)
    ensures After(env, s, req, luck) == s
  {
  }

  /** The bootstrap fields never change by commits. */
  lemma {:induction false} BootstrapHeld(env: Env, s: Snap, run: seq<Step>, n: nat)
    requires n <= |run|
    ensures Overlay(At(env, s, run, n).active, s.active) == At(env, s, run, n).active
  {
    if n > 0 {
      BootstrapHeld(env, s, run, n - 1);
    }
  }

  /** Exactly one state's workers run after every commit, and its context is new exactly when the
      commit was applied. */
  lemma {:induction false} OneWorkerSet(env: Env, s: Snap, run: seq<Step>, n: nat)
    requires Started(env, s) && n <= |run|
    ensures var t := At(env, s, run, n); t.live == {t.current} && t.current < t.next
    ensures n < |run| ==>
            (OutcomeAt(env, s, run, n).Applied? <==> At(env, s, run, n + 1).current != At(env, s, run, n).current)
  {
    if n > 0 {
      OneWorkerSet(env, s, run, n - 1);
    }
  }

  /** The outcomes of the first `n` commits. */
  function Outcomes(env: Env, s: Snap, run: seq<Step>, n: nat): seq<Outcome>
    requires n <= |run|
  {
    if n == 0 then [] else Outcomes(env, s, run, n - 1) + [OutcomeAt(env, s, run, n - 1)]
  }

  /** Every half-way commit (apply and restore both failed) was repaired by a later applied one. */
  ghost predicate Repaired(outs: seq<Outcome>) {
    forall i | 0 <= i < |outs| && outs[i] == ApplyFailed(false) :: exists j :: i < j < |outs| && outs[j].Applied?
  }

  lemma RepairedBefore(outs: seq<Outcome>, out: Outcome)
    requires Repaired(outs + [out]) && !out.Applied?
    ensures Repaired(outs) && out != ApplyFailed(false)
  {
    var all := outs + [out];
    assert all[|outs|] == out;
    forall i | 0 <= i < |outs| && outs[i] == ApplyFailed(false)
      ensures exists j :: i < j < |outs| && outs[j].Applied?
    {
      assert all[i] == outs[i];
      var j :| i < j < |all| && all[j].Applied?;
      assert outs[j].Applied?;
    }
  }

  /** Disk and runtime agree after every run without an unrepaired half-way commit. */
  lemma {:induction false} DiskAndRuntimeAgree(env: Env, s: Snap, run: seq<Step>, n: nat)
    requires Faithful(env) && Started(env, s) && n <= |run| && Repaired(Outcomes(env, s, run, n))
    ensures Agree(env, At(env, s, run, n), s.active)
  {
    if n > 0 {
      var t, step := At(env, s, run, n - 1), run[n - 1];
      BootstrapHeld(env, s, run, n - 1);
      if OutcomeAt(env, s, run, n - 1).Applied? {
        AppliedAgrees(env, t, step, s.active);
      } else {
        RepairedBefore(Outcomes(env, s, run, n - 1), OutcomeAt(env, s, run, n - 1));
        DiskAndRuntimeAgree(env, s, run, n - 1);
        FailureKeepsAll(env, t, step.req, step.luck);
      }
    }
  }

  lemma AppliedAgrees(env: Env, t: Snap, step: Step, boot: Config)
    requires Faithful(env) && Verdict(env, t, step.req, step.luck).Applied? && Overlay(t.active, boot) == t.active
    ensures Agree(env, After(env, t, step.req, step.luck), boot)
  {
    assert PlanFaithful(env, t.file, step.req);
  }

  /** A half-way commit loses the agreement exactly when it edits more than bootstrap fields. */
  lemma HalfwayDisagrees(env: Env, s: Snap, boot: Config, req: Request, luck: Luck)
    requires Faithful(env) && Agree(env, s, boot) && Verdict(env, s, req, luck) == ApplyFailed(false)
    ensures Agree(env, After(env, s, req, luck), boot)
            <==> env.validate(s.file, req).value.config.rest == env.decode(s.file).value.rest
  {
    assert PlanFaithful(env, s.file, req);
  }

  /** What a client saw validated is what gets written: if the candidate revision it names came from
      validating some text, an applied commit leaves exactly that text in the file. */
  lemma SavesWhatWasValidated(env: Env, s: Snap, req: Request, luck: Luck, seen: Request, raw: string)
    requires Injective(env) && env.validate(raw, seen).Ok? &&
             req.candidate == env.revision(env.validate(raw, seen).value.bytes)
    requires Verdict(env, s, req, luck).Applied?
    ensures After(env, s, req, luck).file == env.validate(raw, seen).value.bytes
  {
    assert env.revision(env.validate(s.file, req).value.bytes) == req.candidate;
  }

  /** The commit wrote the file and left it written. */
  predicate Wrote(out: Outcome) {
    out == Applied || out == ApplyFailed(false)
  }

  /** Commit `k` put `bytes` back into a file that held other bytes. */
  ghost predicate PutBack(env: Env, s: Snap, run: seq<Step>, k: nat, bytes: string)
    requires k < |run|
  {
    Wrote(OutcomeAt(env, s, run, k)) && At(env, s, run, k).file != bytes && At(env, s, run, k + 1).file == bytes
  }

  lemma {:induction false} BytesComeBack(env: Env, s: Snap, run: seq<Step>, i: nat, j: nat, bytes: string)
      returns (k: nat)
    requires i <= j <= |run| && At(env, s, run, i).file != bytes && At(env, s, run, j).file == bytes
    ensures i <= k < j && PutBack(env, s, run, k, bytes)
    decreases j - i
  {
    if At(env, s, run, j - 1).file == bytes {
      k := BytesComeBack(env, s, run, i, j - 1, bytes);
    } else {
      k := j - 1;
      FailureKeepsFile(env, At(env, s, run, k), run[k].req, run[k].luck);
    }
  }

  lemma FailureKeepsFile(env: Env, s: Snap, req: Request, luck: Luck)
    ensures !Wrote(Verdict(env, s, req, luck)) ==> After(env, s, req, luck).file == s.file
  {
  }

  lemma WroteMoves(env: Env, s: Snap, req: Request, luck: Luck)
    requires Wrote(Verdict(env, s, req, luck))
    ensures After(env, s, req, luck).file != s.file && env.revision(s.file) == req.expected
  {
  }

  /** No lost update: two saves that name the same expected revision are separated by a save that
      put those bytes back. */
  lemma NoLostUpdate(env: Env, s: Snap, run: seq<Step>, i: nat, j: nat) returns (k: nat)
    requires Injective(env) && i < j < |run| && run[i].req.expected == run[j].req.expected
    requires Wrote(OutcomeAt(env, s, run, i)) && Wrote(OutcomeAt(env, s, run, j))
    ensures i < k < j && PutBack(env, s, run, k, At(env, s, run, i).file)
  {
    SavedSame(env, s, run, i, j);
    k := BytesComeBack(env, s, run, i + 1, j, At(env, s, run, i).file);
  }

  lemma SavedSame(env: Env, s: Snap, run: seq<Step>, i: nat, j: nat)
    requires Injective(env) && i < |run| && j < |run| && run[i].req.expected == run[j].req.expected
    requires Wrote(OutcomeAt(env, s, run, i)) && Wrote(OutcomeAt(env, s, run, j))
    ensures At(env, s, run, i + 1).file != At(env, s, run, i).file == At(env, s, run, j).file
  {
    SavedHere(env, s, run, i);
    SavedHere(env, s, run, j);
    SameBytes(env, At(env, s, run, i).file, At(env, s, run, j).file);
  }

  lemma SameBytes(env: Env, a: string, b: string)
    requires Injective(env) && env.revision(a) == env.revision(b)
    ensures a == b
  {
  }

  lemma SavedHere(env: Env, s: Snap, run: seq<Step>, i: nat)
    requires i < |run| && Wrote(OutcomeAt(env, s, run, i))
    ensures At(env, s, run, i + 1).file != At(env, s, run, i).file
    ensures env.revision(At(env, s, run, i).file) == run[i].req.expected
  {
    WroteMoves(env, At(env, s, run, i), run[i].req, run[i].luck);
  }
}
