# A verified model of the capability and consent protocol

This Dafny project models the core of a capability and consent protocol with an in-memory runtime, and proves
properties of the model. `dafny verify dfyconfig.toml` checks everything. Code that changes state is modelled by
classes and loops and proved against specification functions; code that computes is modelled by functions; the
properties are lemmas about those functions, over every input, run or chain.

- **Relationship runtime** (`Orchestrator.dfy`). The orchestrator keeps a snapshot per (tenant, relationship) beside
  its event log. The snapshots are a cache of filter, stable sort and fold, and are correct after every step of a run
  *exactly* when sequences never decrease per pair and no two pairs on record share a key. Keys are strings
  `tenant::relationship`: an absent `::` in the ids is not enough (`"a:" :: "b"` and `"a" :: ":b"` collide), but a
  tenant without `:` at its end and without `::` inside is. Replay resumes, arrival order is irrelevant when sequences
  are distinct, and the replayed state is characterised field by field.
- **Trust chains** (`TrustChain.dfy`). The breadth-first search terminates, finds a shortest grant path exactly when
  one exists, and the validator accepts its result exactly when the actors differ and some path is short enough.
- **Control plane** (`ControlPlane.dfy`). An invariant over grants, evidence log, counter and idempotency cache holds
  over every run; replays, repeated revocations and the unreachable fallbacks follow from it. When each operation
  succeeds, with which error it fails otherwise, and the whole state afterwards are stated apart from the transitions.
- **Mint, verify, enforce, execute** (`Text.dfy`, `Scope.dfy`, `Environment.dfy`, `Consents.dfy`, `Capabilities.dfy`,
  `Enforcement.dfy`, `Execution.dfy`, `CalendarTime.dfy`, `TimeWindow.dfy`). Parsing, normalising, hashing, minting,
  verifying and the two statements of the access decision. Minting succeeds exactly when an active grant covers the
  request, and hands out just what was requested. A minted capability verifies and comes back unchanged *except* when
  its consent carries a blank market maker: minting accepts that, verification does not. The engine allows what the
  capability machine accepts and nothing else, so its last denial is dead code; scope and permissions of a contract
  stay within the parent consent, while its resource is never compared with the capability. The comparison of
  millisecond with second stamps is worked out to the exact window. It is never empty for a calendar expiry, but can
  be empty otherwise, since the patterns accept stamps that are no dates; and it opens again with the year 10000,
  whose sign sorts before every digit, for a capability without `not_before`.
- **Memory pipeline** (`Consolidation.dfy`, `Identifiers.dfy`, `Scores.dfy`, `Nutrients.dfy`, `ExtractionRules.dfy`,
  `AuditExactness.dfy`, `Synthesis.dfy`, `RuntimeSignals.dfy`, `SignalRules.dfy`, `Envelopes.dfy`,
  `MemoryPipeline.dfy`). Extraction, synthesis, signals and envelopes, each with its consolidation by key. Which
  nutrients, categories, signals and envelopes arise, and what they say, is told from the input and the policies
  alone. Every envelope shows the lineage of one promoted nutrient; audit flags survive all stages; redaction splits
  the sources, shows as much as mode, flags and limit leave and what ranks first, the hiding modes keep audit-required
  memories out of sight, contradictions reach machines in review packets only, and past extraction no consolidation
  ever merges anything. Audit flags are *not* exact in general: the lineages `["a|b"]` and `["a", "b"]` share a key
  and lend each other the flag. Over a set of memory ids they are exact if and only if joining with bars tells all
  lineages over the set apart, for instance when no id holds a bar. Merging two envelopes keeps visible and redacted
  apart only if neither shows what the other hides; the code does not check that, the pipeline never gets there. The
  category `STRATEGIC_OPPORTUNITY` is never assigned.
- **Execution fabric** (`ExecutionFabric.dfy`). Runs that start only listed steps and complete them with attestations
  the attestation layer accepts never get stuck, complete each step once in a topological order, and end with the plan
  completed; such a run exists exactly for acyclic dependencies, if no step lacks an attestation or the layer accepts
  some reference. A completed plan stays completed and has no required step unfinished; a cancelled one can still be
  completed.
- **Rate limiter** (`RateLimiter.dfy`). Any half-open interval of one window's length admits at most 2L - 1 calls of a
  key whose limits are at most L, L at least 1, also when the key changes tier; the bound is reached for every L.
- **Attenuation and single-use tokens** (`Attenuation.dfy`, `TokenRegistries.dfy`, `CapabilityTokens.dfy`,
  `TokenFaults.dfy`). An attenuated capability permits what its parent permits, as far as the patch goes. Between any
  two members of an attenuation chain of any length, use is monotone *exactly* when the later one is unusable, never
  in life, or lives within the earlier one's life; a stamp that is missing or no date bounds nothing. Attenuation
  checks neither `notBefore` nor mixed stamp precision, and accepts an empty expiry or the thirteenth month of the
  year before, with which a capability never expires. For `validateDelegation` alone, which also overlooks a missing
  expiry, the exact condition names status, revocation and AI boundary too. A token is accepted in a run exactly when
  it is genuine, derived, inside its window, not presented successfully before and not revoked before; a rejection
  names the first fault there is.
- **SDL paths and brokerage** (`Regexes.dfy`, `SdlPath.dfy`, `Brokerage.dfy`). The parser and the vault's regular
  expression accept the same strings, with a round trip through joining; routing is an argmax with ties to the
  earliest offer.

`Wrappers.dfy`, `Sequences.dfy`, `StableSorting.dfy`, `OrderedMaps.dfy` and `Decimals.dfy` hold options and results,
sequence lemmas, the stable sort fixed by section 23.1.3 of ECMA-262 (with the proof that it is the only one), the
insertion-ordered map of section 24.1 of ECMA-262, and decimal counters.

## Reading the model

- A thrown error is an `Err`, a `Some` error or a reason code, in the order the code checks.
- Clocks, random identifiers, `Date.parse`, `toISOString`, the revocation port, SHA-256 over canonical JSON and the
  character ranking behind `localeCompare` are parameters. `Environment.Sound` asks for 64 hexadecimal digits and an
  injective ranking, `Identifiers.SoundDigest` for no collision and no hyphen, which `Identifiers.EscapeIsSound` meets;
  no hash is assumed both injective and of fixed width.
- A revocation port answers one of the three statuses, throws, or gives no status string; the last two count as
  unknown.
- Strings are sequences of code points and compared point by point, by `<` and by `sort()` without comparator alike.
  Code units order alike on strings without surrogate pairs, which covers every stamp, hash and identifier the patterns
  admit.

## Model

| member | source | states |
|---|---|---|
| Orchestrator.DistributedRuntimeOrchestrator.constructor | runtime/distributed/orchestrator.ts:23-25 | an empty log and no snapshots |
| Orchestrator.DistributedRuntimeOrchestrator.Append | runtime/distributed/orchestrator.ts:27-39 | the log grows by the event, and the snapshots are those of the incremental fold over the new log, the event's own with its sequence and time |
| Orchestrator.DistributedRuntimeOrchestrator.Reconstruct | runtime/distributed/orchestrator.ts:41-48 | filter, stable sort and fold of the log |
| Orchestrator.DistributedRuntimeOrchestrator.ReplayWindow | runtime/distributed/orchestrator.ts:50-61 | exactly the logged events of the tenant with a sequence between the bounds, inclusive, each as often as logged and in log order |
| Orchestrator.KeyInjective | runtime/distributed/orchestrator.ts:118-120 | equal keys of key-safe tenants come from equal pairs |
| Orchestrator.KeyCollision | runtime/distributed/orchestrator.ts:118-120 | two different pairs without any double colon share a key |
| Orchestrator.UnsafeTenantCollides | runtime/distributed/orchestrator.ts:118-120 | every tenant id that is not key-safe collides with some other pair, whatever the relationship |
| Orchestrator.DisciplinedRunsAreCoherent | runtime/distributed/orchestrator.ts:27-48 | after a run with unshared keys and non-decreasing sequences every snapshot is the reconstruction of its pair |
| Orchestrator.CoherentIffDisciplined | runtime/distributed/orchestrator.ts:27-48 | cache and replay agree at every point of a run exactly when the run is disciplined |
| Orchestrator.LateEventBreaksCoherence | runtime/distributed/orchestrator.ts:27-48 | an event with a smaller sequence than the last of its pair leaves the snapshot different from the replay |
| Orchestrator.KeySafeRunsAreCoherent | runtime/distributed/orchestrator.ts:27-48 | key-safe tenants and non-decreasing sequences suffice |
| Orchestrator.ReconstructionIgnoresArrivalOrder | runtime/distributed/orchestrator.ts:41-48 | permuting a log with distinct sequences per pair does not change any reconstruction |
| Orchestrator.ReplayResumes | runtime/distributed/orchestrator.ts:41-61 | folding a pair's sorted replay window after s1 onto its state at s1 gives its state at s2 |
| Orchestrator.ReconstructionIsWellFormed | runtime/distributed/orchestrator.ts:76-116 | scores within [0, 100], readiness min(100, 20 x revocations), duplicate-free capabilities decided by the last event about each, health critical below a trust of 30 and stable from 60 on once trust has moved, and the last sequence |
| Orchestrator.UnclampedTrust | runtime/distributed/orchestrator.ts:82-92 | while no running total leaves [0, 100] the trust score is 50 plus the sum of deltas |
| Orchestrator.ScoresFollowTrust | runtime/distributed/orchestrator.ts:82-92 | a change of trust moves trust by the change and resilience by half of it rounded down, each to the nearest point of [0, 100]; nothing else moves them |
| Orchestrator.CapabilityListStep | runtime/distributed/orchestrator.ts:93-110 | a delegated capability joins the list at its end unless it is there, a revoked one leaves it, the others keep their order |
| TrustChain.BuildAdjacency | protocol/identity/trust-chain.ts:4-9 | the map gives every actor its outgoing grants in order |
| TrustChain.EnqueueChildren | protocol/identity/trust-chain.ts:33-40 | one queue entry per outgoing grant, in order, behind the rest |
| TrustChain.BuildTrustChain | protocol/identity/trust-chain.ts:3-51 | a shortest path of given grants when the target is reachable, NO_TRUST_PATH exactly when it is not |
| TrustChain.ExpandStep | protocol/identity/trust-chain.ts:30-40 | expanding an unvisited actor keeps the search invariant |
| TrustChain.SkipStep | protocol/identity/trust-chain.ts:30-30 | skipping a visited actor keeps the search invariant |
| TrustChain.FrontIsShortest | protocol/identity/trust-chain.ts:16-28 | when the target is at the front, the path to it is shortest among all grant paths |
| TrustChain.ExhaustedMeansUnreachable | protocol/identity/trust-chain.ts:16-50 | an exhausted queue means no grant path leads to the target |
| TrustChain.ReportBrokenLink | protocol/identity/trust-chain.ts:59-64 | one reason is added exactly when some link does not continue its predecessor |
| TrustChain.ValidateTrustChain | protocol/identity/trust-chain.ts:53-67 | the reasons, and validity exactly for a valid, linked, non-empty chain within the depth |
| TrustChain.ReasonsSay | protocol/identity/trust-chain.ts:53-67 | each reason is given exactly when what it says is wrong, and no other reason is |
| TrustChain.GrantPathIsLinked | protocol/identity/trust-chain.ts:59-64 | a grant path is linked from its source to its destination |
| TrustChain.AcceptedIffWithinDepth | protocol/identity/trust-chain.ts:3-67 | the validator accepts what the search built exactly when the actors differ and some grant path is within the depth |
| ControlPlane.ControlPlaneService.constructor | runtime/controlPlane.ts:132-139 | the empty state, which satisfies the invariant |
| ControlPlane.ControlPlaneService.CreateAccessRequest | runtime/controlPlane.ts:141-147 | the state moves by the specified creation and the invariant is kept |
| ControlPlane.ControlPlaneService.DecideAccessRequest | runtime/controlPlane.ts:155-195 | the state moves by the specified decision and the invariant is kept |
| ControlPlane.ControlPlaneService.RevokeGrant | runtime/controlPlane.ts:210-327 | the state moves by the specified revocation and the invariant is kept; with an unused key it succeeds exactly on a known grant whose subject is the given one, if one is given |
| ControlPlane.ControlPlaneService.PerformRevocation | runtime/controlPlane.ts:218-326 | cache lookup, checks, stable answer and the field-by-field atomic section compute the specified revocation |
| ControlPlane.ControlPlaneService.ListActiveGrants | runtime/controlPlane.ts:197-204 | exactly the recorded grants without evidence that match the filters, each once and in creation order, an empty filter matching all |
| ControlPlane.ControlPlaneService.ListRevocationEvidence | runtime/controlPlane.ts:329-333 | the whole log, or the one record of a revoked grant and none of any other |
| ControlPlane.CreationEffect | runtime/controlPlane.ts:141-147 | a new pending request with just the terms of the input, under an unused id, nothing else changed |
| ControlPlane.DecisionEffect | runtime/controlPlane.ts:155-195 | each error exactly on an unknown request or a wrong subject, without effect; otherwise status and time of that request alone change, and an approval, also of a decided request, adds one fresh active grant on its terms |
| ControlPlane.RevokeInv | runtime/controlPlane.ts:210-327 | every revocation keeps the invariant, extends what is recorded, changes nothing on failure and answers from the record |
| ControlPlane.RevocationVerdict | runtime/controlPlane.ts:239-256 | with an unused key a revocation succeeds exactly on a known grant with no subject or its own given; it fails with GrantNotFound exactly on an unknown grant, and with SubjectMismatch exactly on a known grant of another subject |
| ControlPlane.KeyedVerdict | runtime/controlPlane.ts:218-237 | with a known key it succeeds exactly for the grant, subject, requester and reason the key was used with, and otherwise fails with a conflict |
| ControlPlane.AnswerIsCached | runtime/controlPlane.ts:270-321 | a keyed success is in the cache with its input and answer, and nothing else enters the cache |
| ControlPlane.FallbacksUnreachable | runtime/controlPlane.ts:260-268 | a revoked grant has its revocation id, time and evidence: none of the three fallbacks is used |
| ControlPlane.EvidenceOfGrant | runtime/controlPlane.ts:281-305 | exactly one record per revoked grant, agreeing with it, and none of any other |
| ControlPlane.ActiveIffNoEvidence | runtime/controlPlane.ts:281-305 | a grant is active exactly when no evidence names it |
| ControlPlane.CounterCountsRevokedGrants | runtime/controlPlane.ts:281-304 | counter, log length and number of revoked grants are equal |
| ControlPlane.IdentifiersDistinct | runtime/controlPlane.ts:141-304 | request, grant, evidence and revocation ids are pairwise distinct |
| ControlPlane.RunKeepsInv | runtime/controlPlane.ts:141-327 | over every run the invariant holds, the log only grows and revoked grants stay as they are |
| ControlPlane.ReachableInv | runtime/controlPlane.ts:132-334 | the invariant holds in every reachable state |
| ControlPlane.KnownKeyReplays | runtime/controlPlane.ts:218-237 | after any further commands a known key replays its answer for the same input and fails for any other, without changing state |
| ControlPlane.RepeatedRevocationIsStable | runtime/controlPlane.ts:258-279 | every later success on the same grant gives the first revocation's id, evidence and time and adds no evidence, and exactly when it succeeds |
| ControlPlane.FirstRevocationAddsOneRecord | runtime/controlPlane.ts:281-326 | the first revocation of an active grant happens exactly with an unused key and no foreign subject; it revokes that grant with time, id and reason, adds one record that says so under new ids, and moves nothing else |
| RateLimiter.InMemoryRateLimiter.constructor | runtime/limits/rateLimiter.ts:20-25 | no windows, the given limits, 100 and 1000 where none is given |
| RateLimiter.InMemoryRateLimiter.Check | runtime/limits/rateLimiter.ts:27-58 | decision and windows move by the specified step |
| RateLimiter.RunIsAccounted | runtime/limits/rateLimiter.ts:27-58 | over any run with a monotone clock the admissions since an instant are accounted for by the current window |
| RateLimiter.SlidingBound | runtime/limits/rateLimiter.ts:27-58 | any half-open interval of 60,000 ms admits at most 2 max(1, L) - 1 calls of a key, L bounding its limits |
| RateLimiter.SlidingBoundIsSharp | runtime/limits/rateLimiter.ts:27-58 | for every limit some run reaches that bound |
| RateLimiter.WindowBound | runtime/limits/rateLimiter.ts:27-58 | one window admits at most max(1, L) calls |
| RateLimiter.AdmissionIsExact | runtime/limits/rateLimiter.ts:31-57 | a call is admitted exactly when it opens a window or its window has admitted fewer than the limit of its tier; limit, remaining and reset time report that window |
| RateLimiter.CallSays | runtime/limits/rateLimiter.ts:27-58 | for any clock: decision, limit of the tier, remaining calls and the window afterwards, other keys untouched |
| RateLimiter.KeysDoNotInterfere | runtime/limits/rateLimiter.ts:27-58 | a key's window after a run depends on its own calls only |
| RateLimiter.VerdictDependsOnOwnCalls | runtime/limits/rateLimiter.ts:27-58 | every verdict is the one its own key's calls alone would give |
| ExecutionFabric.ExecutionFabric.constructor | runtime/execution-fabric/execution-fabric.ts:18-25 | no plans and no attestations |
| ExecutionFabric.ExecutionFabric.CreateExecutionPlan | runtime/execution-fabric/execution-fabric.ts:27-30 | stores the plan as planned under its id, replacing an earlier one, and touches no other |
| ExecutionFabric.ExecutionFabric.StartExecutionPlan | runtime/execution-fabric/execution-fabric.ts:32-37 | runs a planned or paused plan, fails on any other, without touching other plans |
| ExecutionFabric.ExecutionFabric.PauseExecutionPlan | runtime/execution-fabric/execution-fabric.ts:39-44 | pauses a running plan only |
| ExecutionFabric.ExecutionFabric.CompleteExecutionPlan | runtime/execution-fabric/execution-fabric.ts:46-53 | succeeds exactly on a stored plan in neither waiting state whose steps are all optional or completed, and then completes it; each error exactly when its condition holds |
| ExecutionFabric.ExecutionFabric.CancelExecutionPlan | runtime/execution-fabric/execution-fabric.ts:55-61 | cancels any plan that is not completed |
| ExecutionFabric.ExecutionFabric.FailExecutionPlan | runtime/execution-fabric/execution-fabric.ts:63-68 | fails a plan that is neither completed nor cancelled |
| ExecutionFabric.ExecutionFabric.AddExecutionStep | runtime/execution-fabric/execution-fabric.ts:70-74 | appends the step |
| ExecutionFabric.ExecutionFabric.StartExecutionStep | runtime/execution-fabric/execution-fabric.ts:76-84 | starts the first step with the id when its dependencies are completed, whatever its status |
| ExecutionFabric.ExecutionFabric.CompleteExecutionStep | runtime/execution-fabric/execution-fabric.ts:86-95 | completes it unless a required attestation is missing |
| ExecutionFabric.ExecutionFabric.FailExecutionStep | runtime/execution-fabric/execution-fabric.ts:97-104 | fails the step and with a required step the plan; on a terminal plan the step stays failed although the call throws; the attestations stay as they are |
| ExecutionFabric.ExecutionFabric.ListExecutableSteps | runtime/execution-fabric/execution-fabric.ts:106-108 | exactly the planned steps with completed dependencies, in plan order |
| ExecutionFabric.ExecutionFabric.ListBlockedSteps | runtime/execution-fabric/execution-fabric.ts:110-112 | exactly the other planned steps, in plan order |
| ExecutionFabric.ExecutionFabric.AttachExecutionAttestation | runtime/execution-fabric/execution-fabric.ts:182-194 | a reference the attestation layer rejects changes nothing; any other joins its log entry, no other entry, and the step; a missing plan or step still leaves it in the log |
| ExecutionFabric.ExecutionFabric.RequireStepAttestation | runtime/execution-fabric/execution-fabric.ts:196-200 | marks the step as needing an attestation |
| ExecutionFabric.FindStep | runtime/execution-fabric/execution-plan.ts:15-19 | the first step with the id, none when there is none |
| ExecutionFabric.StartStepSays | runtime/execution-fabric/execution-fabric.ts:76-84 | the first step with the id starts, and it alone changes, unless some dependency is the id of no completed step |
| ExecutionFabric.CompleteStepSays | runtime/execution-fabric/execution-fabric.ts:86-95 | the first step with the id completes, and it alone changes, unless it must attest and has no reference |
| ExecutionFabric.ListsSay | runtime/execution-fabric/execution-step.ts:3-13 | which planned steps are listed as executable, and which as blocked |
| ExecutionFabric.CompletedIsFinal | runtime/execution-fabric/execution-fabric.ts:32-68 | over any sequence of plan operations a completed plan stays completed, and a plan becomes completed only with no required step unfinished |
| ExecutionFabric.CancelledCanComplete | runtime/execution-fabric/execution-fabric.ts:46-68 | a cancelled plan can still be completed, exactly when no required step is unfinished, and reaches no other state |
| ExecutionFabric.EnabledStep | runtime/execution-fabric/execution-fabric.ts:76-95 | an enabled action, an attachment with a reference the attestation layer accepts among them, succeeds, keeps the run invariant and lowers the remaining work |
| ExecutionFabric.DisciplinedRun | runtime/execution-fabric/execution-fabric.ts:76-95 | a disciplined run completes no step twice, each after all its dependencies |
| ExecutionFabric.NeverStuck | runtime/execution-fabric/execution-step.ts:3-13 | with acyclic resolvable dependencies some step is executable or running until all are completed |
| ExecutionFabric.RunToCompletion | runtime/execution-fabric/execution-fabric.ts:76-95 | every disciplined run extends to one that completes every step, provided no step lacks an attestation or the attestation layer accepts some reference |
| ExecutionFabric.CompletedRunCompletesPlan | runtime/execution-fabric/execution-fabric.ts:46-53 | after a run that completed every step, completing the plan succeeds and each step was completed exactly once |
| ExecutionFabric.CompletedRunMeansAcyclic | runtime/execution-fabric/execution-step.ts:3-9 | a disciplined run that completes every step exists for acyclic plans only |
| ExecutionFabric.CompletableIffAcyclic | runtime/execution-fabric/execution-step.ts:3-9 | such a run exists exactly for acyclic resolvable dependencies with no step lacking an attestation or a layer that accepts some reference |
| ExecutionFabric.NothingAcceptedNothingCompleted | runtime/execution-fabric/execution-fabric.ts:86-194 | a fabric that accepts no reference never completes one unattested step that needs an attestation, although its plan is acyclic and resolvable |
| Scope.ScopeKeyInjective | protocol/capability/capability-mint.ts:12-14 | the key of a validated entry tells the entry, also against entries nobody validated |
| Scope.OrdersAgree | protocol/capability/capability-mint.ts:69-80 | on validated entries the key order is the (type, ref) order |
| Scope.SortsAgree | protocol/capability/capability-object.ts:91-100 | sorting by key and by (type, ref) give the same sequence |
| Consents.CheckScope | protocol/consent/consent-validator.ts:45-59 | the scope loop with its seen set reports exactly the specified errors |
| Consents.CheckPermissions | protocol/consent/consent-validator.ts:64-73 | the permission loop with its seen set reports exactly the specified errors |
| Consents.CheckLists | protocol/consent/consent-validator.ts:42-74 | size limits around the two loops |
| Consents.NormalizeKeeps | protocol/consent/consent-normalizer.ts:21-50 | normalising trims, lower-cases and sorts, and adds, drops and merges nothing |
| Consents.ScopeErrorsMeaning | protocol/consent/consent-validator.ts:45-59 | no scope error exactly for valid entries without duplicates |
| Consents.PermissionErrorsMeaning | protocol/consent/consent-validator.ts:64-73 | no permission error exactly for well-formed permissions without duplicates |
| Consents.ValidateConsent | protocol/consent/consent-validator.ts:14-105 | the errors in order, valid exactly when there are none |
| Consents.WellFormedIffNoErrors | protocol/consent/consent-validator.ts:14-105 | a consent is free of errors exactly when it is well formed |
| Consents.ErrorsSay | protocol/consent/consent-validator.ts:14-105 | an error is reported exactly when what it says is wrong, with its index; a consent that does not parse has that error alone |
| Consents.ActiveMeaning | protocol/consent/consent-state.ts:17-74 | active exactly for a well-formed grant, proven not revoked, inside its window |
| Consents.InactiveMeaning | protocol/consent/consent-state.ts:17-74 | each other state exactly for its reason: what is wrong with the consent first, then the revocation port, then time |
| Capabilities.ParseProducesNormal | protocol/capability/capability-object.ts:106-166 | whatever parses comes out in normal form |
| Capabilities.ParseFixesNormal | protocol/capability/capability-object.ts:106-166 | a normal form parses to itself up to scope order |
| Capabilities.ParseIdempotent | protocol/capability/capability-object.ts:106-166 | parsing a parsed capability changes nothing |
| Capabilities.ParseMeaning | protocol/capability/capability-object.ts:106-166 | which raw capabilities parse, and every field of what comes out |
| Capabilities.ParseFailureSays | protocol/capability/capability-object.ts:106-166 | a failing parse reports the first thing that is wrong, in the order it looks |
| Capabilities.HashIgnoresOrder | protocol/capability/capability-object.ts:168-198 | the hash does not see the order of scope entries and permissions |
| Capabilities.PayloadDetermines | protocol/capability/capability-object.ts:168-190 | equal payloads mean equal capabilities up to that order |
| Capabilities.VerifyCapability | protocol/capability/capability-verify.ts:22-60 | parses, then collects temporal and hash errors |
| Capabilities.VerifyMeaning | protocol/capability/capability-verify.ts:4-60 | the parse error of what does not parse, otherwise exactly the errors that are there |
| Capabilities.VerifyIdempotent | protocol/capability/capability-verify.ts:22-60 | verifying what verification returned changes nothing |
| Capabilities.MintDerives | protocol/capability/capability-mint.ts:46-138 | a minted capability stays within its well-formed grant consent: parties, scope, permissions, market maker, expiry |
| Capabilities.MintMeaning | protocol/capability/capability-mint.ts:46-138 | minting succeeds exactly when an active grant consent covers the request and the stamps are in order; the capability carries exactly the requested entries, permissions and start, the requested expiry or else the consent's, and its own hash |
| Capabilities.MintFailureSays | protocol/capability/capability-mint.ts:46-118 | the error of a failing mint is the first thing wrong: with the consent, then with the request, then with the stamps |
| Capabilities.MintIsNormal | protocol/capability/capability-mint.ts:69-138 | a minted capability is in normal form, its scope already in the order of verification, but for a possibly blank market maker |
| Capabilities.MintVerifiesIff | protocol/capability/capability-mint.ts:46-138 | it verifies and comes back unchanged exactly when its consent's market maker is absent or not blank |
| Capabilities.BlankMarketMakerIsMinted | protocol/capability/capability-mint.ts:46-138 | a concrete active consent with a blank market maker from which a capability is minted that verification rejects |
| Capabilities.OpenGrantIsMinted | protocol/capability/capability-mint.ts:46-138 | a concrete grant that can be minted from with any market maker and any ordered stamps |
| Capabilities.StateOfVerified | protocol/capability/capability-state.ts:20-54 | the state of a capability is that of its verified form |
| Capabilities.StateMeaning | protocol/capability/capability-state.ts:20-54 | each state of a verified capability exactly for its reason |
| Capabilities.InvalidIff | protocol/capability/capability-state.ts:20-28 | invalid exactly when it does not verify |
| Capabilities.AccessIff | protocol/capability/capability-machine.ts:10-71 | of any request the machine accepts exactly what an active capability holds after normalising, with every party and market maker named |
| Enforcement.DedupeScopeEntries | protocol/enforcement/enforcement-request.ts:141-155 | the map loop and sort compute the specified deduplication |
| Enforcement.DedupeScopeProperties | protocol/enforcement/enforcement-request.ts:141-155 | the same entries, each once, in an order a second pass keeps |
| Enforcement.NormalRequestProperties | protocol/enforcement/enforcement-request.ts:121-163 | normalising keeps the requested entries and permissions and leaves them parsed and normalised |
| Enforcement.NormalRequestKeeps | protocol/enforcement/enforcement-request.ts:121-163 | capability and time are kept, bindings trimmed, the resource trimmed and lower-cased, and the lists free of duplicates |
| Enforcement.RequestParsesIff | protocol/enforcement/enforcement-request.ts:15-139 | which requests parse |
| Enforcement.NormalRequestIdempotent | protocol/enforcement/enforcement-request.ts:121-163 | a second pass of parsing and normalising changes nothing |
| Enforcement.FindScopeMismatch | protocol/enforcement/enforcement-engine.ts:13-28 | the loop returns the matched prefix and the first entry outside the capability |
| Enforcement.FindPermissionMismatch | protocol/enforcement/enforcement-engine.ts:30-45 | the loop returns the allowed prefix and the first permission outside the capability |
| Enforcement.AccessMeaning | protocol/capability/capability-machine.ts:10-71 | on a normal request and an active verified capability the machine accepts exactly what lies within the capability |
| Enforcement.JudgeMeaning | protocol/enforcement/enforcement-engine.ts:88-194 | the engine's checks allow exactly the same |
| Enforcement.AllowedIffAccess | protocol/enforcement/enforcement-engine.ts:47-194 | the engine allows exactly the parsing requests whose normal form the machine accepts |
| Enforcement.FinalDenialUnreachable | protocol/enforcement/enforcement-engine.ts:164-194 | the last denial is unreachable: REQUEST_INVALID means the request does not parse |
| Enforcement.AllowedMeaning | protocol/enforcement/enforcement-engine.ts:47-194 | an allowance names a verified capability, active now, that covers the normal request |
| Enforcement.ReasonSays | protocol/enforcement/enforcement-engine.ts:47-194 | which denial gets which reason: a request that does not parse, a capability that does not verify, each state that is not active, then the first mismatch; and what is reported as matched |
| Execution.AuthorizedIffAccess | protocol/execution/execution-engine.ts:22-80 | authorised exactly when the request parses and the machine accepts its normal form |
| Execution.AuthorizationSays | protocol/execution/execution-engine.ts:8-80 | target, request, decision, reason and contract of every authorisation; a rejection gives the reason of enforcement |
| Execution.ContractWithinCapability | protocol/execution/execution-contract.ts:10-27 | a contract lies within the active capability it names |
| Execution.ContractCoversRequest | protocol/execution/execution-contract.ts:10-27 | a contract grants exactly the requested entries and permissions, normalised, for the trimmed target, with the requested market maker and resource |
| Execution.ResourceIsUnchecked | protocol/execution/execution-contract.ts:13-26 | an authorised request stays authorised with any other resource that parses, and its contract differs in the resource only; that lies within the capability exactly when the requested one does |
| Execution.OutsideResourceIsContracted | protocol/execution/execution-contract.ts:23-23 | every authorised request has a variant whose contract names a resource outside the capability |
| Execution.ContractWithinConsent | protocol/execution/execution-engine.ts:22-80 | on a minted capability its scope and permissions lie within the parent consent, with that consent's parties, both proven not revoked |
| CalendarTime.SecondOrder | protocol/capability/capability-verify.ts:4-20 | second-precision strings compare as their fields do |
| CalendarTime.MixedOrder | protocol/capability/capability-state.ts:43-53 | a millisecond string sorts before the second string of its own second |
| CalendarTime.ChronologicalOrder | protocol/capability/capability-state.ts:43-53 | on calendar stamps field order is order in time |
| TimeWindow.ExactWindow | protocol/capability/capability-state.ts:43-53 | at any date: in the years 0 to 9999 active exactly when the clock, cut to seconds, is after not_before and not after expires_at; in all others exactly without not_before; always only if proven not revoked |
| TimeWindow.WindowInMilliseconds | protocol/capability/capability-state.ts:43-53 | the window starts one second after not_before and ends one second after expires_at; without not_before it opens again with the year 10000 |
| TimeWindow.WindowNonEmpty | protocol/capability/capability-state.ts:43-53 | a verified capability with a calendar expiry is in its window at the second it expires |
| TimeWindow.WindowNonEmptyIff | protocol/capability/capability-state.ts:43-53 | for any digits, the window holds an instant of the years 0 to 9999 exactly when the last calendar second up to expires_at is after not_before |
| TimeWindow.EverActiveIff | protocol/capability/capability-state.ts:43-53 | a verified capability proven not revoked is active at some date exactly when it has no not_before or there is such a second |
| TimeWindow.WindowCanBeEmpty | protocol/capability/capability-mint.ts:97-138 | from an active consent a capability is minted that verifies and is active at no date |
| TimeWindow.ActiveBeyondConsentIff | protocol/capability/capability-mint.ts:97-118 | a second or more past its consent's expiry a minted capability is active exactly from the year 10000 on, if it verifies, is proven not revoked and has no not_before |
| Attenuation.ValidateDelegation | runtime/capabilities/governance.ts:113-122 | the issues in order |
| Attenuation.IssuesSay | runtime/capabilities/governance.ts:113-122 | each issue is reported exactly when what it says is wrong |
| Attenuation.PdpOnlyDenies | runtime/capabilities/capability-session.ts:38-70 | a decision point can only take an allowance away |
| Attenuation.UseSays | runtime/capabilities/capability-session.ts:17-71 | use is allowed exactly when nothing keeps the session from the capability, and a denial names the first thing that does |
| Attenuation.PermitsLessIff | runtime/capabilities/governance.ts:113-122 | apart from time, a contained child permits no more than its parent exactly when it permits nothing, or the parent is in force and its AI boundary lets through what the child's does |
| Attenuation.DelegationNarrowsIff | runtime/capabilities/governance.ts:113-122 | a child validateDelegation accepts has no use beyond its parent exactly when it is unusable or never in life, or the parent is in force, its boundary lets through what the child's does, and the child lives within its life |
| Attenuation.AttenuationPermitsLess | runtime/capabilities/governance.ts:124-140 | what a successful attenuation permits, its parent permits |
| Attenuation.AttenuationIff | runtime/capabilities/governance.ts:124-140 | attenuation succeeds exactly when the patch's actions and scopes are contained in the parent's and its expiry does not sort later; otherwise the issues name what is not |
| Attenuation.AttenuatedPermitsIff | runtime/capabilities/governance.ts:124-140 | the child permits exactly what the parent permits, as far as the action is in the patched actions and the resource covered by the patched scope |
| Attenuation.AttenuatedAllowsIff | runtime/capabilities/governance.ts:124-140 | and when: from the patched start to the patched expiry, or the parent's where there is no patch |
| Attenuation.AttenuationNarrowsIff | runtime/capabilities/governance.ts:124-140 | all uses of the child are uses of the parent exactly when the child is unusable, its effective life is empty, or its effective life lies within the parent's; a stamp that is missing or no date bounds nothing |
| Attenuation.ChainNarrowsIff | runtime/capabilities/governance.ts:124-140 | the same condition, exact, between any two members of a chain of any length |
| Attenuation.ChainsNarrow | runtime/capabilities/governance.ts:124-140 | along chains of any length with effective lives nested, a descendant's allowance is an allowance of every ancestor |
| Attenuation.ExpiryNarrows | runtime/capabilities/governance.ts:113-140 | attenuation keeps the end of life when both stamps are dates that string order and time order alike |
| Attenuation.LifetimeCheckIsExact | runtime/capabilities/governance.ts:113-122 | on such stamps the lifetime check fails exactly the children that outlive their parent |
| Attenuation.SecondPrecisionAgrees | runtime/capabilities/governance.ts:113-122 | second-precision stamps are such stamps |
| Attenuation.MixedPrecisionOutlives | runtime/capabilities/governance.ts:113-122 | with mixed precision a child passes the check and outlives its parent |
| Attenuation.NoDateNeverExpires | runtime/capabilities/governance.ts:113-140 | a stamp that is no date and is empty or sorts no later than the parent's expiry is accepted, and the child never expires |
| Attenuation.EmptyAndImpossibleExpiries | runtime/capabilities/governance.ts:113-140 | this happens with the empty expiry and with a thirteenth month; the child then narrows its parent exactly when it is unusable, never in life, or the parent never expires either |
| Attenuation.DelegationOverlooksMissingExpiry | runtime/capabilities/governance.ts:113-122 | a child without expiry passes the check under an expiring parent |
| Attenuation.EarlierNotBeforeEscapes | runtime/capabilities/governance.ts:124-140 | an earlier notBefore passes, and allows what the parent denies |
| TokenRegistries.InMemoryNonceRegistry.constructor | capability/registries/InMemoryNonceRegistry.ts:3-4 | nothing seen |
| TokenRegistries.InMemoryNonceRegistry.MarkSeen | capability/registries/InMemoryNonceRegistry.ts:10-12 | the id joins the seen set |
| TokenRegistries.InMemoryNonceRegistry.HasSeen | capability/registries/InMemoryNonceRegistry.ts:6-8 | membership in the seen set |
| TokenRegistries.InMemoryNonceRegistry.Cleanup | capability/registries/InMemoryNonceRegistry.ts:14-16 | nothing is forgotten |
| TokenRegistries.InMemoryRevocationRegistry.constructor | capability/registries/InMemoryRevocationRegistry.ts:3-4 | nothing revoked |
| TokenRegistries.InMemoryRevocationRegistry.Revoke | capability/registries/InMemoryRevocationRegistry.ts:10-12 | the hash joins the revoked set |
| TokenRegistries.InMemoryRevocationRegistry.IsRevoked | capability/registries/InMemoryRevocationRegistry.ts:6-8 | membership in the revoked set |
| CapabilityTokens.ValidateScope | capability/capabilityToken.ts:91-112 | the loop with its seen set stops at the specified first error |
| CapabilityTokens.ValidatePermissions | shared/capabilityActions.ts:32-61 | the action loop with its seen set stops at the specified first error |
| CapabilityTokens.ValidateCapabilityToken | capability/capabilityToken.ts:336-408 | the first failing check in the code's order |
| CapabilityTokens.ValidationMeaning | capability/capabilityToken.ts:336-408 | validation passes exactly well-formed tokens that carry the hash of their canonical payload |
| CapabilityTokens.CanonicalIffSameUpToOrder | capability/canonical.ts:30-64 | payloads have one canonical form exactly when they differ in the order of scope and permissions only |
| CapabilityTokens.TamperEvident | capability/capabilityToken.ts:376-407 | valid tokens with one hash are equal up to that order, unless the digest collides on them |
| CapabilityTokens.AssertScopeContainment | capability/capabilityToken.ts:145-157 | the first entry whose key the consent lacks |
| CapabilityTokens.AssertPermissionContainment | capability/capabilityToken.ts:159-171 | the first permission the consent lacks |
| CapabilityTokens.CheckDerivation | capability/capabilityToken.ts:435-489 | the first failing derivation check in the code's order |
| CapabilityTokens.DerivationMeaning | capability/capabilityToken.ts:435-489 | the derivation checks pass exactly tokens within their consent |
| CapabilityTokens.VerifyCapabilityToken | capability/capabilityToken.ts:426-521 | the verdict on the registries as they were, and the id marked seen exactly on success |
| CapabilityTokens.RevokeCapabilityToken | capability/revocation.ts:26-32 | a well-formed hash joins the revoked set, any other fails without effect |
| CapabilityTokens.VerificationMeaning | capability/capabilityToken.ts:426-521 | success exactly for a genuine token derived from its consent, in its window, not revoked, not seen |
| TokenFaults.FirstFaultIsReported | capability/capabilityToken.ts:336-521 | verification passes exactly a token without faults and fails with the first fault there is, each fault told from token, consent, time and registries alone |
| TokenFaults.MintReportsFault | capability/capabilityToken.ts:192-327 | a failing mint reports something that is wrong with it |
| CapabilityTokens.OrderIsIrrelevant | capability/capabilityToken.ts:426-521 | reordering scope and permissions never changes the verdict |
| CapabilityTokens.MintMeaning | capability/capabilityToken.ts:192-327 | minting succeeds exactly when what was asked for, with version 1.0 and the consent's parties, hash and market maker, is a well-formed payload derived from it, and gives that payload, genuine |
| CapabilityTokens.MintedVerifiesIff | capability/capabilityToken.ts:192-327 | a minted token verifies against its consent exactly inside its window, unseen and unrevoked |
| CapabilityTokens.Execute | capability/capabilityToken.ts:506-521 | one call on the registries is one step of a run |
| CapabilityTokens.RegistriesTellHistory | capability/capabilityToken.ts:506-521 | the registries hold exactly the accepted ids and the revoked hashes of the history |
| CapabilityTokens.AcceptedIff | capability/capabilityToken.ts:426-521 | a presentation is accepted exactly when admissible, its id not accepted before and its hash not revoked before |
| CapabilityTokens.AcceptedAtMostOnce | capability/capabilityToken.ts:512-519 | in any run an id is accepted at most once |
| CapabilityTokens.NeverAfterRevocation | capability/capabilityToken.ts:506-510 | nothing is accepted after its hash was revoked, reordered or not |
| SdlPath.ValidateSDLPath | sdl/validator.ts:46-87 | the errors in order, or the rebuilt path when there are none |
| SdlPath.ValidationErrorsSay | sdl/validator.ts:46-87 | each error of the validator exactly when what it says is wrong |
| SdlPath.ParsesIffValidSegments | sdl/parser.ts:24-80 | parsing succeeds exactly on at least two valid dot-separated segments |
| SdlPath.ParseErrorSays | sdl/parser.ts:24-66 | which error a failing parse reports, from the dots of the trimmed input |
| SdlPath.JoinOfParse | sdl/parser.ts:24-80 | joining the parsed segments gives back the trimmed input |
| SdlPath.ParseOfJoin | sdl/parser.ts:24-80 | joining two or more valid segments parses to exactly those |
| SdlPath.ValidatorFixesParsed | sdl/validator.ts:46-87 | the validator passes every parsed path and changes nothing in it |
| SdlPath.RecognisersAgree | vault/vault.ts:33-47 | the parser and the vault's pattern accept the same inputs |
| Brokerage.CapabilityBrokerageRuntime.constructor | runtime/marketplace/brokerageRuntime.ts:14-15 | the given market |
| Brokerage.CapabilityBrokerageRuntime.PublishProvider | runtime/marketplace/brokerageRuntime.ts:17-19 | the provider joins the market's list |
| Brokerage.CapabilityBrokerageRuntime.PublishOffer | runtime/marketplace/brokerageRuntime.ts:21-23 | the offer joins the market's list |
| Brokerage.CapabilityBrokerageRuntime.AppendReputationRecord | runtime/marketplace/brokerageRuntime.ts:99-104 | the record joins its provider's profile and the score is recomputed from all its records |
| Brokerage.CapabilityBrokerageRuntime.RouteRequest | runtime/marketplace/brokerageRuntime.ts:25-49 | the routing decision on the current market, which it leaves alone |
| Brokerage.RowAllowedMeaning | runtime/marketplace/brokerageRuntime.ts:121-150 | a row is allowed exactly when every check of the request passes |
| Brokerage.RowDecisionSays | runtime/marketplace/brokerageRuntime.ts:121-150 | every field of a row's decision; offer and provider are named if and only if it is allowed |
| Brokerage.SortedFirstMatchIsBest | runtime/marketplace/brokerageRuntime.ts:25-49 | the first match in the sorted rows is the best match in the unsorted ones |
| Brokerage.RouteSelectsBest | runtime/marketplace/brokerageRuntime.ts:25-49 | denial exactly without an eligible offer, otherwise the decision on an eligible offer of maximal reputation, the earliest among equals |
| Brokerage.ClampNeverBites | runtime/marketplace/brokerageRuntime.ts:156-164 | on plausible records the clamp never changes the score |
| Brokerage.ScoreIsAverageWorth | runtime/marketplace/brokerageRuntime.ts:156-164 | a score is the rounded average worth of the records, 40 for fulfilment, 30 for obligations met, 30 for audit, within [0, 100], and 0 without records |
| Brokerage.RecordMovesOneScore | runtime/marketplace/brokerageRuntime.ts:99-104 | a record joins its own provider's first profile and moves that reputation only; without a profile nothing changes |
| Brokerage.ReputationSays | runtime/marketplace/brokerageRuntime.ts:152-154 | a provider's reputation is the score of its first profile, and 0 without one |
| Consolidation.ConsolidateDuplicates | protocol/memory/nutrient-engine.ts:158-180 | the one-pass map consolidation equals grouping by key and folding each group |
| Consolidation.ConsolidatedKeys | protocol/memory/nutrient-engine.ts:158-180 | afterwards keys are distinct and none is lost |
| Consolidation.ConsolidateInvariant | protocol/memory/nutrient-engine.ts:158-180 | what holds of all records and survives a merge holds afterwards |
| Consolidation.ConsolidateDistinct | protocol/memory/executive-synthesis-engine.ts:150-171 | without shared keys consolidation returns its input |
| Nutrients.GroupMemories | protocol/memory/nutrient-engine.ts:186-205 | one pass fills all six groupings |
| Nutrients.GroupedPartitions | protocol/memory/nutrient-engine.ts:193-205 | a memory is in a group exactly when it names the group's key |
| Nutrients.PushNamed | protocol/memory/nutrient-engine.ts:207-224 | the blocker, stakeholder, decision and policy loops push the specified nutrients in order |
| Nutrients.PushPatterns | protocol/memory/nutrient-engine.ts:226-259 | the contradiction, operation, risk and cross-domain parts push the specified nutrients in order |
| Nutrients.CandidatesComposed | protocol/memory/nutrient-engine.ts:207-259 | every pushed nutrient is composed from input memories |
| ExtractionRules.GroupIsNaming | protocol/memory/nutrient-engine.ts:193-205 | a group holds the memories that name its key, in order, each as often as it names it |
| ExtractionRules.CandidatesIff | protocol/memory/nutrient-engine.ts:207-259 | exactly the warranted nutrients are pushed: type, source memories and threshold of each of the eight kinds |
| ExtractionRules.ComposedSays | protocol/memory/nutrient-engine.ts:101-156 | lineage, evidence, average weight, audit flag and confidence of a nutrient, from its source |
| ExtractionRules.PromotedIff | protocol/memory/nutrient-engine.ts:126-128 | a nutrient is promoted exactly when it has the evidence and the confidence the policy asks for |
| Nutrients.ExtractMemoryNutrients | protocol/memory/nutrient-engine.ts:182-270 | grouping, pushing, consolidating and promoting compute the specified extraction |
| Nutrients.ExtractIsFaithful | protocol/memory/nutrient-engine.ts:182-270 | on distinct memory ids lineage names input memories only, audit-required lineage sets the flag, and identifiers are distinct |
| Nutrients.MergingKeepsCandidates | protocol/memory/nutrient-engine.ts:158-180 | each composed nutrient survives as one with its key and, if set, its audit flag |
| Nutrients.FoldAudit | protocol/memory/nutrient-engine.ts:169-176 | a merged nutrient is audit-required exactly when one of the merged ones is, and keeps the first one's lineage |
| ExtractionRules.FoldNutrient | protocol/memory/nutrient-engine.ts:169-176 | a merged nutrient has the highest confidence and the latest update of its group, and the rest from the first |
| AuditExactness.AuditFlagExactIff | protocol/memory/nutrient-engine.ts:130-180 | over a set of memory ids every nutrient of every run is audit-required exactly when an audit-required memory is in its lineage, if and only if joining with bars tells any two non-empty sorted duplicate-free lists of these ids apart |
| AuditExactness.AuditFlagIsExact | protocol/memory/nutrient-engine.ts:130-180 | in particular when no memory id holds a bar |
| AuditExactness.BarFreeIsSeparable | protocol/memory/nutrient-engine.ts:158-180 | joining with bars tells lists of bar-free ids apart |
| AuditExactness.BarsLendTheFlag | protocol/memory/nutrient-engine.ts:130-180 | three concrete memories, "a|b", "a" and an audit-required "b", that yield an audit-required nutrient with no audit-required memory in its lineage |
| Synthesis.Classify | protocol/memory/executive-synthesis-engine.ts:89-108 | contradiction review exactly with a contradiction cluster, strategic opportunity never |
| SignalRules.CategoryIff | protocol/memory/executive-synthesis-engine.ts:89-108 | which category the synthesis of a nutrient gets, from type, weight, confidence and evidence |
| SignalRules.RecordSays | protocol/memory/executive-synthesis-engine.ts:110-148 | every figure and flag of a synthesis, governance memory included |
| Synthesis.SynthesizeExecutiveMemory | protocol/memory/executive-synthesis-engine.ts:173-210 | the specified synthesis, failing on a promoted nutrient without memories, and exactly its records for governance memory, in order |
| SignalRules.SynthesisFailsIff | protocol/memory/executive-synthesis-engine.ts:175-181 | synthesis fails exactly when a promoted nutrient has no memory |
| Synthesis.RecordLineage | protocol/memory/executive-synthesis-engine.ts:175-203 | a record carries its nutrient's lineage and audit flag, and an audit-required one goes to governance memory |
| Synthesis.RecordReview | protocol/memory/executive-synthesis-engine.ts:181-199 | a record asks for review exactly when its nutrient is a contradiction cluster |
| Synthesis.OneRecordPerNutrient | protocol/memory/executive-synthesis-engine.ts:173-210 | in the pipeline no two syntheses merge, and failure is exactly an untraceable promoted nutrient |
| SignalRules.FoldRecord | protocol/memory/executive-synthesis-engine.ts:150-171 | merged syntheses add up evidence, keep the highest confidence, the latest update and every flag, and take the rest from the first |
| RuntimeSignals.PushTypedSignals | protocol/memory/cognitive-runtime.ts:210-232 | the inner loop pushes one signal per confident type |
| RuntimeSignals.GenerateRuntimeSignals | protocol/memory/cognitive-runtime.ts:204-254 | the nested loops and consolidation compute the specified signals |
| RuntimeSignals.SignalTypesDistinct | protocol/memory/cognitive-runtime.ts:122-149 | signal types come without repetition and never include readiness for AI context |
| SignalRules.SignalTypesIff | protocol/memory/cognitive-runtime.ts:122-149 | which types of signals a synthesis is an occasion for |
| SignalRules.SharedEvidenceIs | protocol/memory/cognitive-runtime.ts:141-147 | when two strategic risks share enough evidence |
| SignalRules.SignalsOfSay | protocol/memory/cognitive-runtime.ts:204-254 | a synthesis raises one signal of each type that is due and confident enough and no other, each with its figures, flags and lineage |
| RuntimeSignals.FoldSignalFlags | protocol/memory/cognitive-runtime.ts:183-202 | a merged signal has a flag exactly when one of the merged ones has |
| RuntimeSignals.FoldSignalLineage | protocol/memory/cognitive-runtime.ts:183-202 | a merged signal has exactly the united memory lineage of its group |
| SignalRules.FoldSignal | protocol/memory/cognitive-runtime.ts:183-202 | merged signals unite their nutrients, keep the highest confidence and severity, and take the rest from the first |
| RuntimeSignals.LineageIsTheNutrients | protocol/memory/cognitive-runtime.ts:110-120 | a signal's lineage is that of the nutrient its synthesis came from |
| RuntimeSignals.ReviewReachesSignals | protocol/memory/cognitive-runtime.ts:96-108 | every signal of a synthesis that asks for review needs a human and is never ready AI context |
| RuntimeSignals.SignalsFollowNutrients | protocol/memory/cognitive-runtime.ts:204-254 | in the pipeline no two signals merge, identifiers are distinct and each signal reports one nutrient's lineage and flag |
| Envelopes.ApplyMachineContextRedaction | protocol/memory/machine-cognition-interface.ts:152-182 | the reassignments compute the specified view |
| Envelopes.RedactionPartitions | protocol/memory/machine-cognition-interface.ts:152-182 | visible and redacted split the sources, the limit holds when not negative, and the hiding modes show nothing |
| Envelopes.RedactionShowsFirst | protocol/memory/machine-cognition-interface.ts:152-182 | from mode, flags and limit alone: nothing is visible where a mode hides; otherwise everything within the limit, and beyond it just as many as the limit allows, those that rank first |
| Envelopes.RedactionReason | protocol/memory/machine-cognition-interface.ts:152-182 | the reason a redaction gives |
| Envelopes.BuildMachineCognitionInterfaces | protocol/memory/machine-cognition-interface.ts:282-289 | envelopes, views and packets as specified |
| Envelopes.TraceIff | protocol/memory/machine-cognition-interface.ts:282-289 | packets exactly for envelopes that are audit-required or ask for a log |
| Envelopes.ExposedFaithfully | protocol/memory/machine-cognition-interface.ts:196-213 | views and packets repeat their envelopes, in order |
| Envelopes.FoldEnvelopeFlags | protocol/memory/machine-cognition-interface.ts:261-280 | a merged envelope has a flag exactly when one of the merged ones has |
| Envelopes.FoldEnvelopeLineage | protocol/memory/machine-cognition-interface.ts:261-280 | a merged envelope has exactly the united memory lineage of its group |
| Envelopes.FoldEnvelopeRest | protocol/memory/machine-cognition-interface.ts:261-280 | the other lists unite too, and the rest, the boundary included, stays that of the first |
| Envelopes.MergeKeepsSplitIff | protocol/memory/machine-cognition-interface.ts:267-277 | a merge keeps visible and redacted apart exactly when neither envelope shows what the other hides |
| Envelopes.EnvelopesFollowSignals | protocol/memory/machine-cognition-interface.ts:261-289 | for signals with distinct identifiers no two envelopes merge |
| Envelopes.OneEnvelopePerSignal | protocol/memory/machine-cognition-interface.ts:127-259 | for signals with distinct identifiers: one envelope per signal that is confident, allowed by its flags, of one of three types and for an allowed task, in order, saying of it what it should and bounding the machine as the policy does |
| MemoryPipeline.PipelineIsGoverned | protocol/memory/machine-cognition-interface.ts:152-289 | a run on distinct memory ids fails exactly on a promoted nutrient without memories; otherwise each envelope shows the lineage and flag of one promoted nutrient, names input memories only, sets and traces audit flags, splits its sources, shows all of them or as many as the limit leaves and those that rank first unless a mode hides them, keeps out what the policy says, and sends contradictions to review only |
| MemoryPipeline.ReadyContextIsShown | protocol/memory/machine-cognition-interface.ts:215-289 | a promoted nutrient whose synthesis is eligible as AI context, and whose ready signal the policy admits, has its envelope in the result |
| MemoryPipeline.PipelineAuditExactIff | protocol/memory/machine-cognition-interface.ts:215-289 | over a set of memory ids every envelope of every run is audit-required exactly when an audit-required memory is behind it, if and only if joining with bars tells the lineages over them apart |
| MemoryPipeline.PipelineAuditIsExact | protocol/memory/machine-cognition-interface.ts:215-289 | in particular when no memory id holds a bar |
| MemoryPipeline.InterfacesAreGoverned | protocol/memory/machine-cognition-interface.ts:215-289 | the same promises for any traced signals |

## Left out

- Aliasing: objects the code hands out and shares with its stores are values here, so a caller that mutates a returned request, grant or step is not modelled; the fabric's shallow copy of a plan's steps likewise.
- SHA-256, canonical JSON and random identifiers: parameters. The memory pipeline's digest, cut to 64 bits in the code, is assumed free of collisions, and so is its hyphen-free hexadecimal form.
- `Date.parse` and `toISOString`: parameters; where the calendar matters, `toISOString` is the stamp in the years 0 to 9999 and some signed string in all others. A clock that is an Invalid Date, on which it throws, does not occur.
- The order of strings with surrogate pairs, by code unit in the code and by code point here.
- A status string of a revocation port that is none of the three: the types exclude it, and the code would let it pass as not revoked.
- The `checkpoint` label of a replay window.
- Shape checks of untyped input (`typeof`, arrays, records), and fields that are only carried along: pricing, metadata, action context, payload, resource contents, obligations.
- Lower-casing outside ASCII, and `localeCompare` beyond a lexicographic order in an injective ranking of characters.
- IEEE rounding: scores, trust deltas and averages are reals; sequences and clock readings are integers; `NaN` does not occur, and invalid dates only where dates are parsed.
- Free text: error messages, summaries, reasons, explanations and recommended actions of the memory stages, and the envelopes' operation lists, policy scope and expiry.
- Cognitive queries, `classifyNutrientType` and the memory weighting and decay engines: only queries and helpers outside the pipeline.
- A limit on visible memories that is not a whole number.
- The orchestrator's `evaluatePolicy` and the control plane's `listRequestsBySubject`: plain record building and filtering.
- Telemetry, audit hooks and adapter callbacks, apart from the attestation validator and the policy decision point.
- The fabric's leases, continuations, failures and retry advice, and the brokerage's agreements, leases and continuity export: plain set and get.
- The optional market maker registry of `validateCapabilityToken`, which verification does not pass, and the registries' `reset`.
- Capability lifecycle transitions, lineage evaluation and obligation merging in `runtime/capabilities`: status tables and unions.
- The vault beyond its path check, the HTTP server, clients, storage and the status-table registries; `aoc/capabilities`, `legacy` and `enterprise/src` are not part of this model.
