# TokenRoute: a verified model

TokenRoute is a gateway in front of several LLM providers. This project models the parts of it where a mistake
would be silent, and proves what they promise. Each module stands for one component.

**The configuration edit engine** (`internal/config/store.go`). A file is read, its secrets are hidden, a user edits
the result, and the edit is merged into the file's tree, its hidden secrets are put back, and the outcome is compared
with the file.

- `Trees`, `Schema`, `Identity`, `Sorting`: trees, what they mean (`Abs`: key order and comments gone), list identities.
- `Redaction`, `Merging`, `Restoring`, `Diffing`: the operations as functions on trees. `MergeLaws`, `DiffLaws`,
  `TagEdits`, `Masking`, `EditLaws`, `NoOpLaws`, `SavedAgain`, `RestartLaws`, `KeyOrdering`, `ShippedSchema`: what is
  proved about them.
  `LostEdits`: concrete documents, under the gateway's own schema, where they do not do what an editor expects.
- `NodeHeap`, `RedactInPlace`, `MergeInPlace`, `RestoreInPlace`, `EditInPlace`: the same operations as the program does
  them, on node objects that are changed in place, proved equal to the functions.

**The transaction around it** (`Store.Commit`, `runtimeReloader.Apply`): `ConfigStore` has the two objects and runs of
commits in which every write and build may fail; `StoreLaws` puts the edit engine into it.

**The request path**: `CircuitBreaker`, `QuotaLedger`, `TokenBucket`, `Ordering`, `Probing` (what the ordering's filter
does to the breakers), `Failover`, `Routing`, `Inflight`.

**Streams**: `TextLines`, `LineRelay` (the usage tracker's lines), `AnthropicEvents`, `AnthropicLaws`,
`AnthropicStream` (the Anthropic event translator).

How to read it: an object whose methods update fields is a class; each method's contract equates the new state with a
specification function of the old one, and the lemmas are about those functions, over all runs. Times are integers
(milliseconds) in `CircuitBreaker` and `QuotaLedger` and reals (seconds) in `TokenBucket`; floats are reals.

## What the proofs found

- Merging compares scalars by text only, so an edit that changes nothing but scalars' type tags is dropped
  (`TagEdits.TagEditMerges`, `LostEdits.TagEditDropped`); `MergeLaws.MergeExact` says exactly when the merged
  tree means what was submitted.
- The change list has three blind spots: tags (`LostEdits.TagEditLost`), everything below the first level of a list
  without identity keys (`LostEdits.NestedEditLost`), and submitted keyed lists that repeat an identity or hold an item
  without one (`LostEdits.AddedTierLost`). `DiffLaws.DiffMissesExactly` says they are the only ones. An empty change list
  makes the store keep the old bytes, so an accepted edit is lost exactly when it has an empty change list and sits in a
  blind spot (`NoOpLaws.UnchangedExactly`, `StoreLaws.KeptBytesExactly`). With text-determined tags, flat unkeyed lists
  and identified items there is no blind spot (`NoOpLaws.EmptyChangesSafe`).
- A raw edit may leave a keyed list that repeats an identity or holds an item without one. From then on every structured
  save is refused with a conflict, one that changes nothing included (`SavedAgain.AcceptedLeaves`,
  `SavedAgain.StructuredSave`).
- Saving an unchanged document is refused when a literal was hidden because it sits inside a container at a secret path:
  its own path is not secret, so its sentinel is not accepted back (`EditLaws.RoundTrip`,
  `LostEdits.HiddenInContainerRefused`).
- If both the apply and the restoring write of a commit fail, file and runtime disagree exactly when the edit went beyond
  the bootstrap fields (`ConfigStore.HalfwayDisagrees`, `LostEdits.HalfwayCanDisagree`). `CommitResult.Restored`
  reports it.
- A client told to retry can come back up to one microsecond too early (`TokenBucket.RetryAfterExact`,
  `TokenBucket.RetryTooEarly`). A negative token count overfills a bucket (`TokenBucket.InRangeExactly`).
- A model lock is asked after the circuit breaker, so a locked candidate uses up the breaker's one half-open admission
  although nothing is sent to it (`Probing.LockedProbeIsLost`).
- A quota row's used count is the sum recorded since its window started exactly when its last window start dropped nothing
  recorded at that very instant (`QuotaLedger.UsedExactly`); it drops something only if a shorter window was set at an
  instant at which tokens had been recorded (`QuotaLedger.UsedIsSpent`, `QuotaLedger.SameInstantForgets`). That input
  exists at the ledger's interface only: the gateway sets limits only while it builds a state, before anything is recorded
  (cmd/tokenroute/main.go:220, 230).
- The circuit breaker's cooldown escalation cannot happen with an auto-disable count of 5 or less, which includes the
  default of 3 (`CircuitBreaker.EscalatesFromSix`).
- A fallback route without usable candidates ends the run with no candidate at all (`Routing.RunRoute`).
- The Anthropic translator still dispatches an event that the body breaks off in, which section 9.2.6 of the WHATWG HTML
  Standard would discard; `AnthropicEvents.TranslateIsEmit` and the laws after it include that last event.
- `OnSuccess` closes a disabled breaker too, so `Enable` is not the only way out of that state (`CircuitBreaker.Breaker.OnSuccess`).

## Model

| member | source | states |
|---|---|---|
| Redaction.RedactionExact | internal/config/store.go:117-232 | for every position of every tree: a covered literal scalar becomes the sentinel (comments kept), every other node keeps its kind, text, tag, keys and children; covered = own path secret, or a container on the way with a secret path or secret items, or a mapping whose entries are secret |
| Redaction.RedactTwice | internal/config/store.go:124-196 | redacting a redacted tree changes nothing, at any path |
| RedactInPlace.RedactNode | internal/config/store.go:124-152 | the in-place walk over node objects ends in the redacted tree, touching only the node's own objects and keeping the object structure |
| RedactInPlace.RedactHere | internal/config/store.go:160-196 | the same for one value node: scalar, secret container, mapping with secret entries, other |
| RedactInPlace.MaskDescendants | internal/config/store.go:205-232 | the in-place sweep below a secret container masks every literal of the subtree |
| RedactInPlace.StarIsRedacted | internal/config/store.go:187-195 | masking the scalar entries first and then walking gives the one-pass redaction |
| MergeLaws.MergeExact | internal/config/store.go:670-857 | when merging succeeds, the merged tree means the submitted one if and only if no scalar kept for its equal text differs in its tag |
| TagEdits.TagEditMerges | internal/config/store.go:670-711 | merging a document that differs from the base in scalar tags only, lists without identity keys left alone, gives back the base |
| LostEdits.TagEditDropped | internal/config/store.go:706-711 | a document that only turns a quoted number of a provider's parameter override into a number: the candidate it leads to is the old file |
| MergeLaws.MergeKeepsLayout | internal/config/store.go:643-857 | at every place that is in both trees, through surviving keys and items of the same identity: scalars and containers keep their comments, the keys of a base mapping keep their order and comments, and known keys that stood in schema order still do |
| KeyOrdering.OrderKeysAnyOrder | internal/config/store.go:591-628 | new keys come out in the same sorted order for every enumeration order of the Go map they are taken from |
| MergeInPlace.MergeNode | internal/config/store.go:670-717 | the in-place merge of node objects succeeds exactly when the merge function does and then stands for its result; nodes it brings in are fresh copies |
| MergeInPlace.MergeMapping | internal/config/store.go:719-764 | dropping, merging and inserting the pairs of a mapping object gives the merged mapping |
| MergeInPlace.InsertKid | internal/config/store.go:647-665 | a new pair lands before the first later schema sibling, else at the end, other pairs unmoved |
| MergeInPlace.MergeKeyed | internal/config/store.go:779-856 | merging a list by identity reports conflicts as specified and otherwise leaves matched items merged in place and new items rebuilt, in submitted order |
| MergeInPlace.Clone | internal/config/store.go:92-115 | a copy shares no object with anything and stands for the same tree |
| Restoring.SecretsNeverMove | internal/config/store.go:1036-1217 | after a successful restore no sentinel is left, each former sentinel holds the base's literal from the same keys and identities, and every other node is as submitted |
| Restoring.RestoreAcceptsExactly | internal/config/store.go:1065-1273 | restoring succeeds if and only if every sentinel stands at a secret path where the base has a literal at the same keys and identities |
| RestoreInPlace.RestoreSecrets | internal/config/store.go:1036-1043 | the in-place restore ends in the restored tree or reports the first error of the walk or of the final sweep |
| RestoreInPlace.RestoreNode | internal/config/store.go:1065-1217 | the in-place walk equals the specified walk, errors included |
| RestoreInPlace.FindSentinel | internal/config/store.go:1223-1273 | the sweep finds a sentinel if and only if one is left anywhere |
| DiffLaws.DiffMissesExactly | internal/config/store.go:1314-1481 | for any two documents, the first with identified list items: they mean the same if and only if the change list is empty and nothing differs in one of the three blind spots |
| DiffLaws.DiffDecides | internal/config/store.go:1314-1481 | with text-determined tags and scalar-only lists without identity: the documents mean the same if and only if the change list is empty and the second one's list items are identified |
| LostEdits.AddedTierLost | internal/config/store.go:1391-1460 | a raw edit that repeats a free-tier entry, or adds one without a model, is accepted, means something else and has an empty change list |
| LostEdits.NestedEditLost | internal/config/store.go:1470-1481 | the same for an edit inside a list of a provider's parameter override |
| LostEdits.TagEditLost | internal/config/store.go:1349-1352 | the same for turning a quoted number of a parameter override, which goes upstream as it is, into a number |
| EditLaws.RoundTrip | internal/config/store.go:361-423 | submitting the redacted base, mapping keys in any order, is accepted if and only if every hidden scalar is itself at a secret path; then the candidate means the base and the change list is empty |
| EditLaws.KeepsByPosition | internal/config/store.go:1184-1212 | the round trip's condition says: every sentinel position has a secret wildcard path |
| LostEdits.HiddenInContainerRefused | internal/config/store.go:181-186 | a sound file whose redacted document, submitted unchanged, is refused for sentinel misuse |
| NoOpLaws.UnchangedExactly | internal/config/store.go:361-423 | for every accepted edit the candidate means the base if and only if the change list is empty and the redacted documents do not differ in a blind spot |
| SavedAgain.AcceptedLeaves | internal/config/store.go:361-403 | an accepted edit leaves distinct keys and no sentinel, so its candidate is a good base if and only if all its list items can be told apart |
| SavedAgain.StructuredSave | internal/config/store.go:361-403 | for every sound file, unidentified list items included: a structured save of what was read is accepted if and only if every hidden scalar is itself at a secret path and all list items can be told apart, and it is a conflict if and only if they cannot |
| SavedAgain.NextSave | internal/config/store.go:361-403 | after any accepted edit the next such save is accepted under exactly these conditions on the candidate |
| SavedAgain.FormIsFlat | internal/config/schema.go:43-113 | in the gateway's own schema no list with identity keys stands below one without, as these laws ask |
| EditInPlace.BuildCandidate | internal/config/store.go:361-403 | the candidate built on copied objects is the specified one or fails with its code, and the base's objects are unchanged |
| EditInPlace.RedactedCopy | internal/config/store.go:415-419 | a redacted copy leaves the original alone |
| ShippedSchema.SchemaIsClear | internal/config/schema.go:43-113 | in the gateway's own schema no identity field, keyed list or wildcard is secret and no secret container holds a keyed list |
| ShippedSchema.GoodBaseHere | internal/config/schema.go:43-113 | so for this schema the edit laws need only distinct keys, identified list items and no sentinel text in the file |
| RestartLaws.FieldReported | internal/config/store.go:1314-1467 | a top-level field that is submitted as a scalar or not at all is on the change list if and only if it was added, removed or has another kind or text |
| StoreLaws.RestartExact | internal/config/store.go:447-464 | a plan asks for a restart if and only if a bootstrap field of the document, hidden ones included, was added, removed or got another kind or text |
| StoreLaws.ValidatingWhatWasRead | internal/config/store.go:361-471 | validating what was read plans the old bytes without restart, and fails as a bad edit if and only if a hidden scalar is not itself at a secret path |
| StoreLaws.SavingWhatWasRead | internal/config/store.go:1637-1681 | committing what was read never changes file, configuration or workers |
| StoreLaws.KeptBytesExactly | internal/config/store.go:405-423 | for every accepted request: with changes the plan holds the candidate's encoding, which means something else than the file; without changes it holds the old bytes, which mean what was submitted if and only if the edit is in no blind spot |
| ConfigStore.Store.Commit | internal/config/store.go:1637-1681 | one commit yields the specified outcome and the specified file, configuration and workers for every combination of failing steps |
| ConfigStore.Runtime.Apply | cmd/tokenroute/reloader.go:42-99 | a built state replaces configuration and workers, the old workers being cancelled; an admin apply keeps the bootstrap fields; a failed build changes nothing |
| ConfigStore.DiskAndRuntimeAgree | cmd/tokenroute/reloader.go:49-99 | after every run of commits in which each half-way commit was followed by an applied one, the running configuration is the decoded file with the bootstrap fields held at their start values |
| ConfigStore.HalfwayDisagrees | internal/config/store.go:1673-1676 | when apply and restore both fail, agreement survives if and only if the edit touched bootstrap fields only |
| LostEdits.HalfwayCanDisagree | internal/config/store.go:1673-1676 | an edit of a top-level field, validated by the edit engine, after whose half-way commit file and running configuration disagree |
| ConfigStore.BootstrapHeld | cmd/tokenroute/reloader.go:141-148 | no run of commits changes the four running bootstrap fields |
| ConfigStore.OneWorkerSet | cmd/tokenroute/reloader.go:76-97 | after every commit of every run exactly one worker context is not cancelled, the running state's, and it is a new one if and only if the commit was applied |
| ConfigStore.SavesWhatWasValidated | internal/config/store.go:1652-1654 | an applied commit writes exactly the bytes the client saw validated |
| ConfigStore.NoLostUpdate | internal/config/store.go:1645-1647 | two saves naming the same expected revision are separated by a save that put those bytes back |
| TokenBucket.Bucket.Allow | internal/ratelimit/ratelimit.go:46-59 | the new level and the answer are those of one step of the bucket, for every count |
| TokenBucket.Bucket.Deduct | internal/ratelimit/ratelimit.go:95-106 | the new level is that of one charging step, floored at zero, for every count |
| TokenBucket.RateBound | internal/ratelimit/ratelimit.go:34-59 | for every limited bucket, every run with a nondecreasing clock and no negative count, and every interval [s, t]: the granted tokens total at most capacity + rate*(t - s) |
| TokenBucket.LevelAlwaysInRange | internal/ratelimit/ratelimit.go:34-106 | the level of a limited bucket is in [0, capacity] after every run with a nondecreasing clock and no negative count |
| TokenBucket.InRangeExactly | internal/ratelimit/ratelimit.go:46-106 | one operation keeps the level in range if and only if it does not give back more than is missing |
| TokenBucket.RetryAfterExact | internal/ratelimit/ratelimit.go:75-91 | waiting the advertised seconds is enough if and only if the exact wait is under one second, whole, or at least a microsecond past a whole second |
| TokenBucket.RetryTooEarly | internal/ratelimit/ratelimit.go:75-91 | a bucket whose client waits the advertised second and is refused again |
| CircuitBreaker.Breaker.Allow | internal/router/circuit.go:193-210 | the answer and new state are those of one question |
| CircuitBreaker.Breaker.OnSuccess | internal/router/circuit.go:253-266 | the new state after a success, in every mode and from every state, disabled included |
| CircuitBreaker.Breaker.OnFailureKind | internal/router/circuit.go:276-355 | the new state after a failure, in consecutive, percentage and per-kind mode |
| CircuitBreaker.TripsBounded | internal/router/circuit.go:212-251 | in every reachable state open and half-open imply 1 <= trips < auto-disable and trips >= cycles + 1 |
| CircuitBreaker.ProbeBound | internal/router/circuit.go:193-251 | between two `Enable` calls a breaker with auto-disable N admits at most N-1 half-open probes |
| CircuitBreaker.OneProbeAtATime | internal/router/circuit.go:193-210 | after a probe was admitted every question is refused until an outcome or an admin event |
| CircuitBreaker.StatesClassified | internal/router/circuit.go:153-169 | in consecutive mode closed, degraded and open or half-open states are told apart by the failure count and the two thresholds, in every run |
| CircuitBreaker.FailureWhileOpen | internal/router/circuit.go:276-355 | in every run a counted failure while open restarts the cooldown or disables the breaker |
| CircuitBreaker.CooldownEscalates | internal/router/circuit.go:171-189 | the cooldown is base * 2^min(max(cycles-3, 0), 4) |
| CircuitBreaker.ProbeFromOpenUntil | internal/router/circuit.go:375-384 | an open breaker admits its probe exactly from `OpenUntil` on |
| CircuitBreaker.NoEscalation | internal/router/circuit.go:171-225 | with auto-disable at most 5 no reachable open breaker has an escalated cooldown |
| CircuitBreaker.EscalatesFromSix | internal/router/circuit.go:171-225 | some run escalates if and only if auto-disable is at least 6 |
| QuotaLedger.Ledger.Record | internal/router/quota.go:176-188 | recording rolls the window and adds the tokens, if positive, to that row only |
| QuotaLedger.Ledger.Remaining | internal/router/quota.go:119-153 | the budget by low balance, fresh observation, missing limit or local accounting, and the row after rolling |
| QuotaLedger.UsedExactly | internal/router/quota.go:176-223 | in every run of a new row, with any limits, window lengths and observations: used count plus what the last window start forgot of its own instant is the sum recorded since the window started, so the two agree if and only if nothing was forgotten |
| QuotaLedger.UsedIsSpent | internal/router/quota.go:176-223 | they agree in every run that never sets a window shorter than the one in force at an instant at which tokens were already recorded |
| QuotaLedger.SameInstantForgets | internal/router/quota.go:207-223 | a run of a new row that does so and drops what was recorded |
| QuotaLedger.RemainingIsLimitMinusSpent | internal/router/quota.go:119-153 | without a fresh observation the budget is max(0, limit - (that sum - what was forgotten)), and it is max(0, limit - that sum) if and only if nothing was forgotten or the limit is used up anyway |
| QuotaLedger.BudgetShrinks | internal/router/quota.go:119-223 | under a fixed limit and without a fresh observation the budget never grows inside a window and is the whole limit once the window has elapsed |
| Ordering.Route.OrderCandidates | internal/router/router.go:439-762 | for every strategy the result is a permutation of the survivors, arranged as the strategy says and tiered by capability, and only round robin moves the rotation |
| Ordering.Route.Filter | internal/router/router.go:441-466 | the survivors are the candidates that pass tags, breaker and lock, with their positions |
| Ordering.SurvivorsExact | internal/router/router.go:441-466 | a position survives if and only if it passes, and positions stay in order |
| Ordering.StrategySorts | internal/router/router.go:492-760 | a sorting strategy's result is sorted by its key, and candidates with equal keys keep their order |
| Ordering.TiersKeepOrder | internal/router/capabilities.go:176-184 | candidates that cover the required modalities come first and each tier keeps the strategy's order |
| Ordering.Route.StickyNext | internal/router/router.go:122-139 | returns the cursor and moves it after the configured number of uses |
| Ordering.StickySchedule | internal/router/router.go:120-139 | after k uses the cursor is (k div N) mod len with k mod N uses of it |
| Ordering.ScheduleOverRuns | internal/router/router.go:469-491 | over every run of orderings, whatever survives in each, the rotation depends only on how many had two survivors or more |
| Ordering.StickyLeader | internal/router/router.go:475-486 | the leader is the first surviving position at or after the cursor, else the first survivor |
| Ordering.PinByAffinity | internal/router/router.go:237-257 | a hit needs at least two candidates and the pinned one among them; its first occurrence then leads and the others keep their order; without a hit nothing changes |
| Probing.Hear | internal/router/router.go:441-466 | the filter's questions, in order, on the breaker objects: each answer and each breaker's final state |
| Probing.OneSurvivor | internal/router/router.go:448-450 | of all questions to an open breaker, from however many orderings, exactly the first one after the cooldown survives, unless its model is locked |
| Probing.AtMostOneSurvivor | internal/router/router.go:448-450 | no two candidates of the provider survive, in one ordering or several |
| Probing.SurvivorsOfOpen | internal/router/router.go:441-466 | so the survivors of one ordering hold of such a provider the first due candidate alone, or none if it is locked |
| Probing.LockedProbeIsLost | internal/router/router.go:448-450 | if that one is locked, the breaker is half-open and no candidate of the provider survives this or any later ordering |
| Failover.FailoverPass | internal/server/server.go:667-806 | the calls are those of the candidates in order, guarded ones skipped, up to the first deterministic answer; without one the carried failure and error are those of the last candidates; only the answering provider stays counted |
| Failover.FusionRun | internal/server/fusion.go:28-144 | both arms are called; the winner is relayed and stays counted; without an answer the last retryable response is carried, else the last error |
| Failover.JudgeRun | internal/server/fusionjudge.go:64-104 | no call without panel answers, which carries the panel's last failure, else its last error; else one call, to the only answer's model or the judge, which decides the reply |
| Routing.RunRoute | internal/server/server.go:829-940 | at most 4 passes, no route twice, each the first known unvisited fallback, with that route's ordered candidates, pin and strategy; stops at the first deterministic answer or after a confined pass and gives up only when nothing is left; the reply sums up the passes; only the answering provider stays counted |
| Routing.RunPass | internal/server/server.go:860-915 | one pass calls exactly what its setting says: the race of the first two, panel and judge, or the candidates in order, the pinned one alone when confined |
| Routing.PassFacts | internal/server/server.go:860-915 | every strategy's pass leaves a failure or an error when it had a candidate and no answer; a confined pass that does not race makes at most one call |
| Routing.SkipRetryOneCall | internal/server/server.go:863-917 | a pin that hits on a route that skips retries and does not fuse: one pass, at most one call, to the pinned provider, no fallback |
| Inflight.AlwaysConserved | internal/router/router.go:994-1007 | under every interleaving each provider's counter is the number of its calls not returned plus its bodies not closed |
| Inflight.FloorNeverFires | internal/router/router.go:1001-1007 | the counter is positive at every decrement of every run |
| Inflight.ZeroAtRest | internal/server/server.go:1448-1462 | once all calls are over every counter is 0 |
| Inflight.PassIsLegal | internal/server/server.go:667-806 | the calls of every failover pass, written as protocol steps, are a legal run that changes the counters as the pass does |
| Inflight.RaceIsLegal | internal/server/fusion.go:28-144 | the same for every race, whichever arm wins |
| Inflight.Body.Close | internal/server/server.go:1455-1462 | the first close gives the slot back, further closes do nothing |
| LineRelay.Relay | internal/server/server.go:1525-1554 | for every split of the body into reads the tracker gets exactly the newline-split lines of the copied bytes, and copying stops at the first failed write or the end |
| AnthropicStream.Translator.Read | internal/provider/anthropic/anthropic.go:381-405 | the bytes returned are the front of what was still to come, at most the size asked for, and the end is reported only when nothing is left |
| AnthropicStream.Translator.Dispatch | internal/provider/anthropic/anthropic.go:305-367 | fields, output and end mark after one event of every type |
| AnthropicStream.Source.ReadLine | internal/provider/anthropic/anthropic.go:381-386 | however the body is cut into chunks, the next line of the whole body is returned |
| AnthropicStream.Stream | internal/provider/anthropic/anthropic.go:381-405 | for all chunk splits and read sizes the client gets a prefix of one and the same output, and all of it at the end or after as many reads that ask for something as it has bytes |
| AnthropicEvents.TranslateIsEmit | internal/provider/anthropic/anthropic.go:305-405 | the line-by-line translation is the fold over the body's events, read block by block, up to the first stop, followed by the ending |
| AnthropicLaws.ContentIsText | internal/provider/anthropic/anthropic.go:335-347 | the content chunks add up to the upstream text up to the first stop |
| AnthropicLaws.RoleOnce | internal/provider/anthropic/anthropic.go:331-334 | the role is announced once if a start event precedes the stop, else never |
| AnthropicLaws.EndsOnce | internal/provider/anthropic/anthropic.go:281-303 | every output ends with one usage chunk and one end mark and has neither before; the counts are the last ones reported before the stop |

## Left out

- YAML and JSON themselves: parsing, printing, number formats, node style, document nodes, aliases and anchors. `ConfigStore` and `AnthropicStream` take decoding and encoding as arbitrary functions.
- Error texts, concrete display paths and the before and after texts of a change: errors are their codes, changes their wildcard path and kind. The wildcard path also stands where the merge passes its concrete one, which it only compares with `search` and `failure_rules`; both spell a top-level field alike and differ from these names below a list.
- DiffLaws.DiffDecides: needs text-determined tags and scalar-only lists without identity; DiffLaws.DiffMissesExactly shows what happens without them.
- NoOpLaws.UnchangedExactly: needs distinct keys, identified list items and no sentinel text in the base, distinct keys in the submitted document (the YAML decoder refuses repeated ones), and no secret path that ends in a wildcard (ShippedSchema.SchemaIsClear).
- StoreLaws.KeptBytesExactly: the same.
- StoreLaws.RestartExact: takes the candidate's bootstrap fields as scalars and its top-level fields as named, which strict decoding of the candidate guarantees (internal/config/config.go:281); the base may hold anything there but needs distinct keys and no sentinel text.
- SavedAgain.StructuredSave: needs distinct keys and no sentinel text in the base and a schema as in ShippedSchema.SchemaIsClear and SavedAgain.FormIsFlat.
- EditLaws.RoundTrip: needs distinct keys, identified list items and no sentinel text in the base, and a schema whose identity fields are not secret (ShippedSchema.SchemaIsClear).
- MergeInPlace.MergeNode: the submitted document is given as a tree, since merging only reads it; on failure only the node's soundness is stated, as the program throws the copy away.
- MergeInPlace.MergeKeyed: merges all matched items before it copies new ones and takes identities from a snapshot, where the program interleaves these steps.
- RestoreInPlace.RestoreNode: the base is given as a tree, since restoring only reads it, and list identities are taken before the items are restored.
- ConfigStore.Store.Commit: file replacement is atomic; temporary files, permissions, backup contents and rotation, and SIGHUP reloads outside the store's lock are not modelled.
- ConfigStore.DiskAndRuntimeAgree: asks that validation plans new bytes only together with what they decode to, which `StoreLaws.ValidateIsFaithful` shows for the edit engine.
- ConfigStore.NoLostUpdate: takes the revision hash as injective, as ConfigStore.SavesWhatWasValidated does.
- ConfigStore.Runtime.Apply: services carried over between states (usage, keys, limiter, metrics, cache) are not modelled, and a build fails or succeeds by choice.
- Ordering.Route.OrderCandidates: scores (latency averages, the `auto` formula, prices, load) are arbitrary keys, random draws arbitrary numbers, and breaker, tag and lock answers inputs (`Probing` has the breaker's); stable library sorting is an insertion sort.
- Failover.JudgeRun: the panel phase (quorum, grace, deadline) is an input; Inflight covers its counters under all interleavings.
- Failover.FailoverPass: header filtering, locks, breaker events and quota observation after each call are not modelled.
- Routing.RunRoute: the order and pin of every hop are inputs; recording a new pin after success is not modelled.
- Inflight.PassIsLegal: the steps of a pass are derived from its calls, one call after the other; how a race's steps interleave is covered by Inflight.AlwaysConserved.
- TokenBucket.RateBound: needs counts that are not negative (TokenBucket.NegativeOverfills shows why); the gateway passes no others: `DeductTPM` ignores them (internal/ratelimit/ratelimit.go:183-188) and `Allow` gets the constant 1 (lines 130, 239). A bucket without capacity is unlimited.
- TokenBucket.LevelAlwaysInRange: the same.
- CircuitBreaker.TripsBounded: the machine's 64-bit duration arithmetic is unbounded here.
- LineRelay.Relay: what the tracker does with a line, and response headers.
- The per-key registry of buckets, HTTP handlers, usage storage, metrics, the dashboard, probes, catalog and price syncing, search backends and the expression library: plumbing or I/O.
