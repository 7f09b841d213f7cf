/** The four stages together: from memories to what machines get to see. */
module MemoryPipeline {
  import opened Wrappers
  import opened Sequences
  import opened Text
  import opened Consolidation
  import opened Identifiers
  import opened Nutrients
  import opened Synthesis
  import opened RuntimeSignals
  import opened Envelopes
  import opened AuditExactness

  datatype Policies = Policies(
      extraction: ExtractionPolicy, synthesis: SynthesisPolicy, runtime: RuntimePolicy, machine: MachinePolicy)

  /** `onlyPromoted` is whether the runtime gets the promoted nutrients or all of them to look lineage up in. */
  function Pipeline(
      digest: Digest, rank: Ranking, memories: seq<Memory>, now: string, policies: Policies, onlyPromoted: bool)
    : Result<Interfaces, SynthesisError>
  {
    var nutrients := Extract(digest, memories, now, policies.extraction);
    match Synthesize(digest, nutrients, now, policies.synthesis)
    case Err(error) => Err(error)
    case Ok(syntheses) =>
      var signals := Generate(digest, syntheses, if onlyPromoted then Promoted(nutrients) else nutrients, now,
                              policies.runtime);
      Ok(BuildInterfaces(digest, rank, signals, now, policies.machine))
  }

  method RunPipeline(
      digest: Digest, rank: Ranking, memories: seq<Memory>, now: string, policies: Policies, onlyPromoted: bool)
    returns (r: Result<Interfaces, SynthesisError>)
    ensures r == Pipeline(digest, rank, memories, now, policies, onlyPromoted)
  {
    var nutrients, promoted := ExtractMemoryNutrients(digest, memories, now, policies.extraction);
    var synthesized, _ := SynthesizeExecutiveMemory(digest, nutrients, now, policies.synthesis);
    match synthesized
    case Err(error) => r := Err(error);
    case Ok(syntheses) =>
      var signals := GenerateRuntimeSignals(digest, syntheses, if onlyPromoted then promoted else nutrients, now,
                                            policies.runtime);
      var interfaces := BuildMachineCognitionInterfaces(digest, rank, signals, now, policies.machine);
      r := Ok(interfaces);
  }

  /** The envelope shows the lineage and the audit flag of one nutrient; a contradiction cluster goes to human
      review and never out as plain context. */
  ghost predicate Stems(e: Envelope, n: Nutrient) {
    && e.sourceNutrientIds == [n.nutrientId] && e.sourceMemoryIds == n.sourceMemoryIds
       && e.auditRequired == n.auditRequired
    && (n.nutrientType == ContradictionCluster ==> e.humanReviewRequired && e.interfaceType != ContextEnvelope)
  }

  /** What the policy bounds: the split with its limit, what the hiding modes show, what is let in at all, and
      what a machine may never do. */
  ghost predicate Bounded(policy: MachinePolicy, e: Envelope) {
    && Split(e)
    && (policy.maxVisibleMemoryIds >= 0 ==> |e.visibleMemoryIds| <= policy.maxVisibleMemoryIds)
    && (policy.redactionMode in {HideAuditRequired, MinimalLineage} && e.auditRequired ==> e.visibleMemoryIds == [])
    && (policy.redactionMode in {HideHumanReview, MinimalLineage} && e.humanReviewRequired ==> e.visibleMemoryIds == [])
    && (e.auditRequired ==> policy.allowAuditRequiredContext)
    && (e.humanReviewRequired ==> policy.allowHumanReviewContext)
    && !e.boundary.mayModifyMemory && !e.boundary.mayDeleteMemory && !e.boundary.mayPromoteGovernanceMemory
  }

  /** How much of its sources the envelope shows, from the mode, its flags and the limit alone. */
  ghost predicate ShowsEnough(rank: Ranking, policy: MachinePolicy, e: Envelope) {
    && Distinct(e.sourceMemoryIds)
    && ShowsFirst(
         rank,
         || (policy.redactionMode in {HideAuditRequired, MinimalLineage} && e.auditRequired)
         || (policy.redactionMode in {HideHumanReview, MinimalLineage} && e.humanReviewRequired),
         policy.maxVisibleMemoryIds, e.sourceMemoryIds, e.visibleMemoryIds, e.redactedMemoryIds)
  }

  /** An audit-required memory behind the envelope sets its flag, stays out of sight under the hiding modes, and is
      kept out altogether when the policy does not allow it. */
  ghost predicate GuardsAudit(memories: seq<Memory>, policy: MachinePolicy, e: Envelope) {
    && Faithful(memories, e.sourceMemoryIds, e.auditRequired)
    && forall m :: m in memories && m.auditRequired ==>
         && (policy.redactionMode in {HideAuditRequired, MinimalLineage} ==> m.memoryId !in e.visibleMemoryIds)
         && (!policy.allowAuditRequiredContext ==> m.memoryId !in e.sourceMemoryIds)
  }

  /** Everything promised of one envelope. It leaves a trace exactly when it is audit-required or in human review:
      the third reason for a log, a governance candidate, is never let in. */
  ghost predicate Governed(
      digest: Digest, rank: Ranking, memories: seq<Memory>, sources: seq<Nutrient>, policy: MachinePolicy,
      interfaces: Interfaces, e: Envelope) {
    && (exists n :: n in sources && Stems(e, n))
    && Bounded(policy, e)
    && ShowsEnough(rank, policy, e)
    && GuardsAudit(memories, policy, e)
    && (NeedsTrace(e) <==> e.auditRequired || e.humanReviewRequired)
    && (NeedsTrace(e) ==> PacketOf(digest, e) in interfaces.auditTracePackets)
  }

  ghost predicate SignalStems(digest: Digest, s: Signal, n: Nutrient) {
    && HasSignalId(digest, s)
    && s.sourceNutrientIds == [n.nutrientId] && s.sourceMemoryIds == n.sourceMemoryIds
       && s.auditRequired == n.auditRequired
    && (n.nutrientType == ContradictionCluster ==> NeedsReview(s))
  }

  ghost predicate TracedSignals(digest: Digest, signals: seq<Signal>, sources: seq<Nutrient>) {
    && DistinctSignalIds(digest, signals)
    && forall s :: s in signals ==> exists n :: n in sources && SignalStems(digest, s, n)
  }

  lemma EnvelopeStems(digest: Digest, rank: Ranking, s: Signal, n: Nutrient, now: string, policy: MachinePolicy)
    requires SignalStems(digest, s, n) && Admitted(s, policy) && UniqueSorted(n.sourceMemoryIds) == n.sourceMemoryIds
    ensures Stems(EnvelopeOf(digest, rank, s, now, policy), n)
  {
    UniqueSortedOne(n.nutrientId);
  }

  lemma EnvelopeIsBounded(digest: Digest, rank: Ranking, s: Signal, now: string, policy: MachinePolicy)
    requires Injective(rank) && Admitted(s, policy)
    ensures Bounded(policy, EnvelopeOf(digest, rank, s, now, policy))
    ensures var e := EnvelopeOf(digest, rank, s, now, policy);
            NeedsTrace(e) <==> e.auditRequired || e.humanReviewRequired
  {
    UniqueSortedProperties(s.sourceMemoryIds);
    RedactionPartitions(rank, s.sourceMemoryIds, s, policy);
  }

  lemma EnvelopeShowsEnough(digest: Digest, rank: Ranking, s: Signal, now: string, policy: MachinePolicy)
    requires Injective(rank)
    ensures ShowsEnough(rank, policy, EnvelopeOf(digest, rank, s, now, policy))
  {
    SourcesCountOnce(s.sourceMemoryIds);
    RedactionShowsFirst(rank, s.sourceMemoryIds, s, policy);
  }

  lemma AuditIsGuarded(memories: seq<Memory>, policy: MachinePolicy, e: Envelope)
    requires Faithful(memories, e.sourceMemoryIds, e.auditRequired) && Bounded(policy, e)
    ensures GuardsAudit(memories, policy, e)
  {
    assert Split(e);
  }

  lemma EnvelopeIsGoverned(
      digest: Digest, rank: Ranking, memories: seq<Memory>, sources: seq<Nutrient>, s: Signal, n: Nutrient, now: string,
      policy: MachinePolicy, envelopes: seq<Envelope>)
    requires Injective(rank) && n in sources && WellMade(digest, memories, n)
    requires SignalStems(digest, s, n) && Admitted(s, policy)
    requires EnvelopeOf(digest, rank, s, now, policy) in envelopes
    ensures Governed(digest, rank, memories, sources, policy, Expose(digest, envelopes),
                     EnvelopeOf(digest, rank, s, now, policy))
  {
    var e := EnvelopeOf(digest, rank, s, now, policy);
    EnvelopeStems(digest, rank, s, n, now, policy);
    EnvelopeIsBounded(digest, rank, s, now, policy);
    EnvelopeShowsEnough(digest, rank, s, now, policy);
    AuditIsGuarded(memories, policy, e);
    TraceIff(digest, envelopes, e);
  }

  /** Traced signals make governed envelopes. */
  lemma InterfacesAreGoverned(
      digest: Digest, rank: Ranking, memories: seq<Memory>, sources: seq<Nutrient>, signals: seq<Signal>, now: string,
      policy: MachinePolicy)
    requires SoundDigest(digest) && Injective(rank)
    requires TracedSignals(digest, signals, sources) && AllWellMade(digest, memories, sources)
    ensures var interfaces := BuildInterfaces(digest, rank, signals, now, policy);
            forall e :: e in interfaces.envelopes ==> Governed(digest, rank, memories, sources, policy, interfaces, e)
  {
    EnvelopesFollowSignals(digest, rank, signals, now, policy);
    var built := Built(digest, rank, signals, now, policy);
    forall e | e in built ensures Governed(digest, rank, memories, sources, policy, Expose(digest, built), e) {
      var s := BuiltFromSignals(digest, rank, signals, now, policy, e);
      var n :| n in sources && SignalStems(digest, s, n);
      EnvelopeIsGoverned(digest, rank, memories, sources, s, n, now, policy, built);
    }
  }

  lemma SourcesOfNutrients(
      digest: Digest, memories: seq<Memory>, nutrients: seq<Nutrient>, promoted: seq<Nutrient>, known: seq<Nutrient>,
      now: string,
      synthesis: SynthesisPolicy, runtime: RuntimePolicy)
    requires AllWellMade(digest, memories, nutrients) && DistinctNutrients(nutrients)
    requires Distinct(promoted) && forall n :: n in promoted ==> n in nutrients
    requires forall n :: n in known ==> n in nutrients
    ensures Sources(Context(digest, Records(digest, promoted, now, synthesis), IndexById(known), now, runtime),
                    Records(digest, promoted, now, synthesis), promoted)
  {
    IndexFinds(known);
    forall i | 0 <= i < |promoted|
      ensures Traces(digest, Records(digest, promoted, now, synthesis)[i], promoted[i])
              && Agrees(IndexById(known), promoted[i])
    {
      assert promoted[i] in nutrients;
      RecordLineage(digest, promoted[i], now, synthesis);
      RecordReview(digest, promoted[i], now, synthesis);
    }
    forall i, j | 0 <= i < j < |promoted| ensures NutrientKey(promoted[i]) != NutrientKey(promoted[j]) {
      assert promoted[i] in nutrients && promoted[j] in nutrients;
    }
  }

  lemma OriginatedSignalsAreTraced(digest: Digest, signals: seq<Signal>, records: seq<Record>, promoted: seq<Nutrient>)
    requires |records| == |promoted| && AllOriginate(digest, signals, records, promoted) && DistinctSignals(signals)
    ensures TracedSignals(digest, signals, promoted)
  {
    forall s | s in signals ensures HasSignalId(digest, s) && exists n :: n in promoted && SignalStems(digest, s, n) {
      var i :| 0 <= i < |records| && Reports(digest, s, records[i], promoted[i]);
      assert s.signalId == BuildId(digest, "signal", SignalMaterial(s.signalType, records[i]));
      assert promoted[i] in promoted && SignalStems(digest, s, promoted[i]);
    }
    forall i, j | 0 <= i < j < |signals| ensures signals[i].signalId != signals[j].signalId {
      assert !Confusable(signals[i], signals[j]);
    }
  }

  lemma StagesAreGoverned(
      digest: Digest, rank: Ranking, memories: seq<Memory>, nutrients: seq<Nutrient>, now: string, policies: Policies,
      onlyPromoted: bool)
    requires SoundDigest(digest) && Injective(rank)
    requires AllWellMade(digest, memories, nutrients) && DistinctNutrients(nutrients) && Distinct(nutrients)
    ensures var records := Records(digest, Promoted(nutrients), now, policies.synthesis);
            var signals := Generate(digest, records, if onlyPromoted then Promoted(nutrients) else nutrients, now,
                                    policies.runtime);
            var interfaces := BuildInterfaces(digest, rank, signals, now, policies.machine);
            forall e :: e in interfaces.envelopes ==>
              Governed(digest, rank, memories, Promoted(nutrients), policies.machine, interfaces, e)
  {
    var promoted := Promoted(nutrients);
    var known := if onlyPromoted then promoted else nutrients;
    var records := Records(digest, promoted, now, policies.synthesis);
    var signals := Generate(digest, records, known, now, policies.runtime);
    FilterMembers(nutrients, (n: Nutrient) => n.promoted);
    FilterDistinct(nutrients, (n: Nutrient) => n.promoted);
    SourcesOfNutrients(digest, memories, nutrients, promoted, known, now, policies.synthesis, policies.runtime);
    SignalsFollowNutrients(digest, records, promoted, known, now, policies.runtime);
    OriginatedSignalsAreTraced(digest, signals, records, promoted);
    InterfacesAreGoverned(digest, rank, memories, promoted, signals, now, policies.machine);
  }

  /** Run on memories with distinct identifiers, the pipeline fails exactly when a promoted nutrient has no memory
      behind it, and otherwise every envelope is governed and stems from a promoted nutrient. */
  lemma PipelineIsGoverned(
      digest: Digest, rank: Ranking, memories: seq<Memory>, now: string, policies: Policies, onlyPromoted: bool)
    requires SoundDigest(digest) && Injective(rank) && DistinctIds(memories)
    ensures var nutrients := Extract(digest, memories, now, policies.extraction);
            var r := Pipeline(digest, rank, memories, now, policies, onlyPromoted);
            && (r.Ok? <==> forall n :: n in nutrients && n.promoted ==> n.sourceMemoryIds != [])
            && (r.Ok? ==> forall e :: e in r.value.envelopes ==>
                  Governed(digest, rank, memories, Promoted(nutrients), policies.machine, r.value, e))
  {
    var nutrients := Extract(digest, memories, now, policies.extraction);
    ExtractIsFaithful(digest, memories, now, policies.extraction);
    OneRecordPerNutrient(digest, memories, nutrients, now, policies.synthesis);
    StagesAreGoverned(digest, rank, memories, nutrients, now, policies, onlyPromoted);
  }

  // ---------------------------------------------------------------- coverage

  lemma {:induction false} ReadySignalIsRaw(c: Context, records: seq<Record>, r: Record)
    requires r in records && ShouldBeAiContextEligible(r, r.confidenceScore, r.reviewRequired, c.policy)
    ensures ReadySignal(c, r) in RawSignals(c, records)
  {
    var front, last := DropLast(records), Last(records);
    assert records == front + [last];
    if r == last {
      assert ReadySignal(c, r) in ReadySignals(c, r);
      assert ReadySignal(c, r) in SignalsOf(c, r);
    } else {
      ReadySignalIsRaw(c, front, r);
    }
  }

  lemma {:induction false} PresentHas(signals: seq<Signal>, build: Signal -> Option<Envelope>, s: Signal)
    requires s in signals && build(s).Some?
    ensures build(s).value in Present(signals, build)
  {
    assert signals == DropLast(signals) + [Last(signals)];
    if s != Last(signals) {
      PresentHas(DropLast(signals), build, s);
    }
  }

  /** The signals of a run, given its nutrients. */
  function RunContext(
      digest: Digest, nutrients: seq<Nutrient>, now: string, synthesis: SynthesisPolicy, runtime: RuntimePolicy,
      onlyPromoted: bool): Context {
    Context(digest, Records(digest, Promoted(nutrients), now, synthesis),
            IndexById(if onlyPromoted then Promoted(nutrients) else nutrients), now, runtime)
  }

  /** The synthesis is eligible as AI context and the policy admits its ready signal. */
  predicate ShownReady(c: Context, r: Record, policy: MachinePolicy) {
    ShouldBeAiContextEligible(r, r.confidenceScore, r.reviewRequired, c.policy) && Admitted(ReadySignal(c, r), policy)
  }

  /** No ready context is lost: a promoted nutrient whose synthesis is eligible, and whose ready signal the policy
      admits, has its envelope in the result. */
  lemma ReadyContextIsShown(
      digest: Digest, rank: Ranking, memories: seq<Memory>, now: string, policies: Policies, onlyPromoted: bool,
      n: Nutrient)
    requires SoundDigest(digest) && Injective(rank) && DistinctIds(memories)
    requires Pipeline(digest, rank, memories, now, policies, onlyPromoted).Ok?
    requires n in Promoted(Extract(digest, memories, now, policies.extraction))
    requires var c := RunContext(digest, Extract(digest, memories, now, policies.extraction), now, policies.synthesis,
                                 policies.runtime, onlyPromoted);
             var r := RecordOf(digest, n, now, policies.synthesis);
             ShownReady(c, r, policies.machine)
    ensures var c := RunContext(digest, Extract(digest, memories, now, policies.extraction), now, policies.synthesis,
                                policies.runtime, onlyPromoted);
            EnvelopeOf(digest, rank, ReadySignal(c, RecordOf(digest, n, now, policies.synthesis)), now,
                       policies.machine)
            in Pipeline(digest, rank, memories, now, policies, onlyPromoted).value.envelopes
  {
    var nutrients := Extract(digest, memories, now, policies.extraction);
    ExtractIsFaithful(digest, memories, now, policies.extraction);
    OneRecordPerNutrient(digest, memories, nutrients, now, policies.synthesis);
    ShownByStages(digest, rank, memories, nutrients, now, policies, onlyPromoted, n);
  }

  lemma ShownByStages(
      digest: Digest, rank: Ranking, memories: seq<Memory>, nutrients: seq<Nutrient>, now: string, policies: Policies,
      onlyPromoted: bool, n: Nutrient)
    requires SoundDigest(digest) && Injective(rank)
    requires AllWellMade(digest, memories, nutrients) && DistinctNutrients(nutrients) && Distinct(nutrients)
    requires n in Promoted(nutrients)
    requires var c := RunContext(digest, nutrients, now, policies.synthesis, policies.runtime, onlyPromoted);
             var r := RecordOf(digest, n, now, policies.synthesis);
             ShownReady(c, r, policies.machine)
    ensures var c := RunContext(digest, nutrients, now, policies.synthesis, policies.runtime, onlyPromoted);
            var known := if onlyPromoted then Promoted(nutrients) else nutrients;
            var signals := Generate(digest, c.syntheses, known, now, policies.runtime);
            EnvelopeOf(digest, rank, ReadySignal(c, RecordOf(digest, n, now, policies.synthesis)), now,
                       policies.machine)
            in BuildInterfaces(digest, rank, signals, now, policies.machine).envelopes
  {
    var promoted := Promoted(nutrients);
    var known := if onlyPromoted then promoted else nutrients;
    var c := RunContext(digest, nutrients, now, policies.synthesis, policies.runtime, onlyPromoted);
    var r := RecordOf(digest, n, now, policies.synthesis);
    var signals := Generate(digest, c.syntheses, known, now, policies.runtime);
    FilterMembers(nutrients, (k: Nutrient) => k.promoted);
    FilterDistinct(nutrients, (k: Nutrient) => k.promoted);
    SourcesOfNutrients(digest, memories, nutrients, promoted, known, now, policies.synthesis, policies.runtime);
    SignalsFollowNutrients(digest, c.syntheses, promoted, known, now, policies.runtime);
    OriginatedSignalsAreTraced(digest, signals, c.syntheses, promoted);
    EnvelopesFollowSignals(digest, rank, signals, now, policies.machine);
    RecordIsMade(digest, promoted, now, policies.synthesis, n);
    ReadySignalIsRaw(c, c.syntheses, r);
    PresentHas(signals, Builder(digest, rank, now, policies.machine), ReadySignal(c, r));
  }

  lemma RecordIsMade(digest: Digest, promoted: seq<Nutrient>, now: string, policy: SynthesisPolicy, n: Nutrient)
    requires n in promoted
    ensures RecordOf(digest, n, now, policy) in Records(digest, promoted, now, policy)
  {
    var i :| 0 <= i < |promoted| && promoted[i] == n;
    assert Records(digest, promoted, now, policy)[i] == RecordOf(digest, n, now, policy);
  }

  // ---------------------------------------------------------------- the audit flag is exact

  /** Every envelope over these identifiers is audit-required exactly when an audit-required memory is behind it. */
  ghost predicate EnvelopesAlwaysExact(digest: Digest, rank: Ranking, ids: iset<string>) {
    forall memories, now, policies, onlyPromoted ::
      DistinctIds(memories) && Over(memories, ids) ==>
        EnvelopesExact(digest, rank, memories, now, policies, onlyPromoted)
  }

  ghost predicate ExactEnvelope(memories: seq<Memory>, e: Envelope) {
    e.auditRequired <==> Behind(memories, e.sourceMemoryIds)
  }

  ghost predicate EnvelopesExact(
      digest: Digest, rank: Ranking, memories: seq<Memory>, now: string, policies: Policies, onlyPromoted: bool) {
    var r := Pipeline(digest, rank, memories, now, policies, onlyPromoted);
    r.Ok? ==> forall e :: e in r.value.envelopes ==> ExactEnvelope(memories, e)
  }

  lemma SeparableEnvelopesExact(
      digest: Digest, rank: Ranking, ids: iset<string>, memories: seq<Memory>, now: string, policies: Policies,
      onlyPromoted: bool)
    requires SoundDigest(digest) && Injective(rank) && DistinctIds(memories) && Over(memories, ids) && Separable(ids)
    ensures EnvelopesExact(digest, rank, memories, now, policies, onlyPromoted)
  {
    var nutrients := Extract(digest, memories, now, policies.extraction);
    var r := Pipeline(digest, rank, memories, now, policies, onlyPromoted);
    PipelineIsGoverned(digest, rank, memories, now, policies, onlyPromoted);
    FilterMembers(nutrients, (k: Nutrient) => k.promoted);
    if r.Ok? {
      forall e | e in r.value.envelopes ensures ExactEnvelope(memories, e) {
        var n :| n in Promoted(nutrients) && Stems(e, n);
        SeparableIsExact(digest, memories, now, policies.extraction, ids, n);
      }
    }
  }

  /** Without bars in memory identifiers, in particular. */
  lemma PipelineAuditIsExact(
      digest: Digest, rank: Ranking, memories: seq<Memory>, now: string, policies: Policies, onlyPromoted: bool)
    requires SoundDigest(digest) && Injective(rank) && DistinctIds(memories)
    requires forall m :: m in memories ==> '|' !in m.memoryId
    ensures EnvelopesExact(digest, rank, memories, now, policies, onlyPromoted)
  {
    var ids := iset id: string | '|' !in id;
    BarFreeIsSeparable(ids);
    SeparableEnvelopesExact(digest, rank, ids, memories, now, policies, onlyPromoted);
  }

  /** Policies that promote and show one nutrient as ready context. */
  function ShowingPolicies(digest: Digest, n: Nutrient, now: string): Policies {
    var synthesis := SynthesisPolicy(0.0, 0.0, 0.0, 0.0, 0.0, 0.0, 0.0, 0.0, 0.0);
    var r := RecordOf(digest, n, now, synthesis);
    Policies(OneEach(n.confidenceScore), synthesis, RuntimePolicy(r.confidenceScore, 1.0, 0.0, 0.0, 0.0),
             MachinePolicy(SignalConfidence(r, AiContextReady), true, true, false, false, false, 1, NoRedaction,
                           [SummarizeGovernedContext], []))
  }

  /** The thresholds and task lists let the ready signal of the synthesis through. */
  predicate LetsThrough(runtime: RuntimePolicy, machine: MachinePolicy, r: Record) {
    && runtime.aiContextConfidenceThreshold == r.confidenceScore
    && machine.minimumSignalConfidence == SignalConfidence(r, AiContextReady)
    && machine.allowAuditRequiredContext && machine.allowHumanReviewContext
    && machine.allowedTaskTypes == [SummarizeGovernedContext] && machine.deniedTaskTypes == []
  }

  lemma ReadySignalIsAdmitted(c: Context, r: Record, policies: Policies)
    requires LetsThrough(policies.runtime, policies.machine, r) && c.policy == policies.runtime
    requires r.lineagePreserved && !r.reviewRequired
    ensures ShownReady(c, r, policies.machine)
  {
    assert InferTask(ReadySignal(c, r).signalType) in policies.machine.allowedTaskTypes;
  }

  lemma PolicyRecordIsReady(c: Context, n: Nutrient, now: string, policies: Policies)
    requires LetsThrough(policies.runtime, policies.machine, RecordOf(c.digest, n, now, policies.synthesis))
    requires c.policy == policies.runtime
    requires n.nutrientType == PolicyDependency && UniqueSorted(n.sourceMemoryIds) == n.sourceMemoryIds
    ensures ShownReady(c, RecordOf(c.digest, n, now, policies.synthesis), policies.machine)
  {
    RecordLineage(c.digest, n, now, policies.synthesis);
    RecordReview(c.digest, n, now, policies.synthesis);
    ReadySignalIsAdmitted(c, RecordOf(c.digest, n, now, policies.synthesis), policies);
  }

  lemma ShowingPoliciesLetThrough(digest: Digest, n: Nutrient, now: string)
    ensures var policies := ShowingPolicies(digest, n, now);
            LetsThrough(policies.runtime, policies.machine, RecordOf(digest, n, now, policies.synthesis))
  {
  }

  lemma LentFlagIsShown(digest: Digest, rank: Ranking, memories: seq<Memory>, merged: Nutrient, now: string)
    requires SoundDigest(digest) && Injective(rank) && DistinctIds(memories) && PolicyOnly(memories)
    requires merged in MergedAboutPolicies(digest, memories, now) && merged.nutrientType == PolicyDependency
    requires merged.sourceMemoryIds != [] && merged.auditRequired && !Behind(memories, merged.sourceMemoryIds)
    ensures var n := Promote(merged, OneEach(merged.confidenceScore));
            !EnvelopesExact(digest, rank, memories, now, ShowingPolicies(digest, n, now), true)
  {
    var n := Promote(merged, OneEach(merged.confidenceScore));
    var policies := ShowingPolicies(digest, n, now);
    var nutrients := Extract(digest, memories, now, policies.extraction);
    MergedIsExtracted(digest, memories, now, merged.confidenceScore, merged);
    ExtractIsFaithful(digest, memories, now, policies.extraction);
    assert WellMade(digest, memories, n);
    forall k | k in nutrients && k.promoted ensures k.sourceMemoryIds != [] {
      PromotedHasEvidence(digest, memories, now, policies.extraction, k);
    }
    PipelineIsGoverned(digest, rank, memories, now, policies, true);
    ShowingPoliciesLetThrough(digest, n, now);
    ShownInexactly(digest, rank, memories, now, policies, n);
  }

  lemma PromotedHasEvidence(digest: Digest, memories: seq<Memory>, now: string, policy: ExtractionPolicy, n: Nutrient)
    requires n in Extract(digest, memories, now, policy) && WellMade(digest, memories, n)
             && policy.minEvidenceCount == 1.0 && n.promoted
    ensures n.sourceMemoryIds != []
  {
    var candidates := Candidates(digest, memories, now, policy);
    var merged := Consolidated(candidates, NutrientKey, MergeNutrients);
    var i :| 0 <= i < |merged| && Extract(digest, memories, now, policy)[i] == n;
    assert n == Promote(merged[i], policy);
  }

  lemma PolicyNutrientIsShown(
      digest: Digest, rank: Ranking, memories: seq<Memory>, now: string, policies: Policies, n: Nutrient, s: Signal)
    requires SoundDigest(digest) && Injective(rank) && DistinctIds(memories)
    requires Pipeline(digest, rank, memories, now, policies, true).Ok?
    requires LetsThrough(policies.runtime, policies.machine, RecordOf(digest, n, now, policies.synthesis))
    requires n in Extract(digest, memories, now, policies.extraction) && n.promoted && WellMade(digest, memories, n)
    requires n.nutrientType == PolicyDependency
    requires var c := RunContext(digest, Extract(digest, memories, now, policies.extraction), now, policies.synthesis,
                                 policies.runtime, true);
             s == ReadySignal(c, RecordOf(digest, n, now, policies.synthesis))
    ensures EnvelopeOf(digest, rank, s, now, policies.machine)
            in Pipeline(digest, rank, memories, now, policies, true).value.envelopes
  {
    var nutrients := Extract(digest, memories, now, policies.extraction);
    var c := RunContext(digest, nutrients, now, policies.synthesis, policies.runtime, true);
    FilterMembers(nutrients, (k: Nutrient) => k.promoted);
    PolicyRecordIsReady(c, n, now, policies);
    ReadyContextIsShown(digest, rank, memories, now, policies, true, n);
  }

  lemma PolicyEnvelopeIsInexact(
      digest: Digest, rank: Ranking, memories: seq<Memory>, nutrients: seq<Nutrient>, now: string, policies: Policies,
      n: Nutrient, e: Envelope)
    requires AllWellMade(digest, memories, nutrients) && DistinctNutrients(nutrients) && n in nutrients
    requires n.auditRequired && !Behind(memories, n.sourceMemoryIds)
    requires var c := RunContext(digest, nutrients, now, policies.synthesis, policies.runtime, true);
             e == EnvelopeOf(digest, rank, ReadySignal(c, RecordOf(digest, n, now, policies.synthesis)), now,
                             policies.machine)
    ensures !ExactEnvelope(memories, e)
  {
    var c := RunContext(digest, nutrients, now, policies.synthesis, policies.runtime, true);
    assert WellMade(digest, memories, n);
    ReadySignalLineage(c, nutrients, memories, n, now, policies.synthesis);
    EnvelopeLineage(digest, rank, ReadySignal(c, RecordOf(digest, n, now, policies.synthesis)), n, now,
                    policies.machine);
  }

  lemma ShownInexactly(
      digest: Digest, rank: Ranking, memories: seq<Memory>, now: string, policies: Policies, n: Nutrient)
    requires SoundDigest(digest) && Injective(rank) && DistinctIds(memories)
    requires Pipeline(digest, rank, memories, now, policies, true).Ok?
    requires LetsThrough(policies.runtime, policies.machine, RecordOf(digest, n, now, policies.synthesis))
    requires n in Extract(digest, memories, now, policies.extraction) && n.promoted && WellMade(digest, memories, n)
    requires n.nutrientType == PolicyDependency && n.auditRequired && !Behind(memories, n.sourceMemoryIds)
    ensures !EnvelopesExact(digest, rank, memories, now, policies, true)
  {
    var nutrients := Extract(digest, memories, now, policies.extraction);
    var c := RunContext(digest, nutrients, now, policies.synthesis, policies.runtime, true);
    var s := ReadySignal(c, RecordOf(digest, n, now, policies.synthesis));
    var e := EnvelopeOf(digest, rank, s, now, policies.machine);
    PolicyNutrientIsShown(digest, rank, memories, now, policies, n, s);
    ExtractIsFaithful(digest, memories, now, policies.extraction);
    PolicyEnvelopeIsInexact(digest, rank, memories, nutrients, now, policies, n, e);
    assert e in Pipeline(digest, rank, memories, now, policies, true).value.envelopes;
  }

  lemma EnvelopeLineage(digest: Digest, rank: Ranking, s: Signal, n: Nutrient, now: string, policy: MachinePolicy)
    requires s.sourceMemoryIds == n.sourceMemoryIds == UniqueSorted(n.sourceMemoryIds)
             && s.auditRequired == n.auditRequired
    ensures var e := EnvelopeOf(digest, rank, s, now, policy);
            e.sourceMemoryIds == n.sourceMemoryIds && e.auditRequired == n.auditRequired
  {
  }

  lemma ReadySignalLineage(
      c: Context, nutrients: seq<Nutrient>, memories: seq<Memory>, n: Nutrient, now: string, policy: SynthesisPolicy)
    requires n in nutrients && AllWellMade(c.digest, memories, nutrients) && DistinctNutrients(nutrients)
    requires c.byId == IndexById(Promoted(nutrients))
    ensures ReadySignal(c, RecordOf(c.digest, n, now, policy)).sourceMemoryIds == n.sourceMemoryIds
    ensures ReadySignal(c, RecordOf(c.digest, n, now, policy)).auditRequired == n.auditRequired
  {
    IndexFinds(Promoted(nutrients));
    FilterMembers(nutrients, (k: Nutrient) => k.promoted);
    assert WellMade(c.digest, memories, n);
    RecordLineage(c.digest, n, now, policy);
    RecordReview(c.digest, n, now, policy);
    LineageIsTheNutrients(c.digest, RecordOf(c.digest, n, now, policy), n, c.byId);
  }

  /** At the end of the pipeline as after extraction: the audit flags over some identifiers are always exact if and only
      if joining with bars tells all lineages over them apart. */
  lemma PipelineAuditExactIff(digest: Digest, rank: Ranking, ids: iset<string>)
    requires SoundDigest(digest) && Injective(rank)
    ensures EnvelopesAlwaysExact(digest, rank, ids) <==> Separable(ids)
  {
    if Separable(ids) {
      forall memories, now, policies, onlyPromoted | DistinctIds(memories) && Over(memories, ids)
        ensures EnvelopesExact(digest, rank, memories, now, policies, onlyPromoted)
      {
        SeparableEnvelopesExact(digest, rank, ids, memories, now, policies, onlyPromoted);
      }
    } else {
      var memories, merged := InseparableLendsFlag(digest, ids, "");
      LentFlagIsShown(digest, rank, memories, merged, "");
    }
  }
}
