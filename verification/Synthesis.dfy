/** Executive synthesis of promoted nutrients (protocol/memory/executive-synthesis-engine.ts). */
module Synthesis {
  import opened Wrappers
  import opened Sequences
  import opened Text
  import opened Consolidation
  import opened Identifiers
  import opened Scores
  import opened Nutrients

  datatype Category =
    | OrganizationalTruth | StrategicRisk | StakeholderGravity | GovernanceSignal | ExecutionPattern | PolicyImpact
    | RecurringFailureMode | StrategicOpportunity | ContradictionRequiresReview | ExecutiveBriefingCandidate

  datatype SynthesisPolicy = SynthesisPolicy(
    recurringBlockerHighWeightThreshold: real, stakeholderHighConfidenceThreshold: real,
    operationalPatternHighEvidenceThreshold: real, governanceHeavyWeightThreshold: real,
    organizationalTruthMinEvidence: real, organizationalTruthMinConfidence: real,
    strategicOpportunityMinConfidence: real, governancePromotionConfidenceThreshold: real,
    governancePromotionMinEvidenceCount: real)

  datatype Record = Record(
    synthesisId: string, category: Category, sourceNutrientIds: seq<string>, sourceMemoryIds: seq<string>,
    createdAt: string, updatedAt: string, confidenceScore: real, evidenceCount: nat, averageNutrientConfidence: real,
    averageMemoryWeight: real, auditRequired: bool, lineagePreserved: bool, reviewRequired: bool,
    promotedToGovernanceMemory: bool)

  datatype SynthesisError = NoTraceableEvidence

  function CategoryName(c: Category): string {
    match c
    case OrganizationalTruth => "ORGANIZATIONAL_TRUTH"
    case StrategicRisk => "STRATEGIC_RISK"
    case StakeholderGravity => "STAKEHOLDER_GRAVITY"
    case GovernanceSignal => "GOVERNANCE_SIGNAL"
    case ExecutionPattern => "EXECUTION_PATTERN"
    case PolicyImpact => "POLICY_IMPACT"
    case RecurringFailureMode => "RECURRING_FAILURE_MODE"
    case StrategicOpportunity => "STRATEGIC_OPPORTUNITY"
    case ContradictionRequiresReview => "CONTRADICTION_REQUIRES_REVIEW"
    case ExecutiveBriefingCandidate => "EXECUTIVE_BRIEFING_CANDIDATE"
  }

  function NutrientIdOf(n: Nutrient): string { n.nutrientId }
  function ConfidenceOf(n: Nutrient): real { n.confidenceScore }
  function AverageWeightOf(n: Nutrient): real { n.memoryWeightAverage }
  function EvidenceOf(n: Nutrient): real { n.evidenceCount as real }

  function MemoriesBehind(nutrients: seq<Nutrient>): seq<string> {
    if nutrients == [] then [] else MemoriesBehind(DropLast(nutrients)) + Last(nutrients).sourceMemoryIds
  }

  predicate Has(nutrients: seq<Nutrient>, t: NutrientType) {
    exists n :: n in nutrients && n.nutrientType == t
  }

  /** `STRATEGIC_OPPORTUNITY` asks for a policy dependency, which an earlier branch already took: it is never
      the answer. */
  function Classify(nutrients: seq<Nutrient>, policy: SynthesisPolicy): (c: Category)
    ensures c != StrategicOpportunity
    ensures c == ContradictionRequiresReview <==> Has(nutrients, ContradictionCluster)
  {
    var avgWeight := Average(Map(nutrients, AverageWeightOf));
    var avgConfidence := Average(Map(nutrients, ConfidenceOf));
    if Has(nutrients, ContradictionCluster) then ContradictionRequiresReview
    else if Has(nutrients, RecurringBlocker) && avgWeight >= policy.recurringBlockerHighWeightThreshold
            then RecurringFailureMode
    else if Has(nutrients, StakeholderSignal) && avgConfidence >= policy.stakeholderHighConfidenceThreshold
            then StakeholderGravity
    else if Has(nutrients, PolicyDependency) then PolicyImpact
    else if Has(nutrients, RiskEvolution) then StrategicRisk
    else if Has(nutrients, OperationalPattern)
            && Sum(Map(nutrients, EvidenceOf)) >= policy.operationalPatternHighEvidenceThreshold
    then ExecutionPattern
    else if Has(nutrients, StrategicSummaryCandidate) then ExecutiveBriefingCandidate
    else if exists n :: n in nutrients
                        && (n.memoryWeightAverage >= policy.governanceHeavyWeightThreshold
                            || n.nutrientType == GovernanceLesson)
    then GovernanceSignal
    else if Has(nutrients, OperationalPattern) && Has(nutrients, RiskEvolution) && Has(nutrients, PolicyDependency)
            && avgConfidence >= policy.strategicOpportunityMinConfidence
    then StrategicOpportunity
    else if |nutrients| as real >= policy.organizationalTruthMinEvidence
            && avgConfidence >= policy.organizationalTruthMinConfidence
    then OrganizationalTruth
    else GovernanceSignal
  }

  function CalculateSynthesisConfidence(nutrients: seq<Nutrient>): real {
    Round2(Min(1.0,
      Average(Map(nutrients, ConfidenceOf)) * 0.65 + Min(1.0, Sum(Map(nutrients, EvidenceOf)) / 20.0) * 0.2
      + Min(1.0, Average(Map(nutrients, AverageWeightOf)) / 100.0) * 0.15))
  }

  predicate ShouldPromoteToGovernance(r: Record, policy: SynthesisPolicy) {
    || r.auditRequired
    || r.confidenceScore >= policy.governancePromotionConfidenceThreshold
    || (r.evidenceCount as real >= policy.governancePromotionMinEvidenceCount && r.category == OrganizationalTruth)
  }

  function SynthesisMaterial(c: Category, sourceNutrientIds: seq<string>): string {
    CategoryName(c) + "::" + Join(sourceNutrientIds, "|")
  }

  /** The record for one promoted nutrient: the only shape synthesis ever builds. */
  function RecordOf(digest: Digest, n: Nutrient, now: string, policy: SynthesisPolicy): Record {
    var nutrients := [n];
    var sourceNutrientIds := UniqueSorted(Map(nutrients, NutrientIdOf));
    var category := Classify(nutrients, policy);
    var record := Record(
      BuildId(digest, "synthesis-" + Lower(CategoryName(category)),
              SynthesisMaterial(category, UniqueSorted(sourceNutrientIds))),
      category, sourceNutrientIds, UniqueSorted(MemoriesBehind(nutrients)), now, now,
      CalculateSynthesisConfidence(nutrients), n.evidenceCount, Round2(Average(Map(nutrients, ConfidenceOf))),
      Round2(Average(Map(nutrients, AverageWeightOf))), n.auditRequired, true, category == ContradictionRequiresReview,
      false);
    record.(promotedToGovernanceMemory := ShouldPromoteToGovernance(record, policy))
  }

  function SynthesisKey(r: Record): string {
    SynthesisMaterial(r.category, r.sourceNutrientIds)
  }

  function MergeRecords(existing: Record, r: Record): Record {
    existing.(updatedAt := if StrLt(existing.updatedAt, r.updatedAt) then r.updatedAt else existing.updatedAt,
              confidenceScore := Max(existing.confidenceScore, r.confidenceScore),
              evidenceCount := existing.evidenceCount + r.evidenceCount,
              auditRequired := existing.auditRequired || r.auditRequired,
              reviewRequired := existing.reviewRequired || r.reviewRequired,
              promotedToGovernanceMemory := existing.promotedToGovernanceMemory || r.promotedToGovernanceMemory)
  }

  function Promoted(nutrients: seq<Nutrient>): seq<Nutrient> {
    Filter(nutrients, (n: Nutrient) => n.promoted)
  }

  function Records(digest: Digest, nutrients: seq<Nutrient>, now: string, policy: SynthesisPolicy): seq<Record> {
    Map(nutrients, n => RecordOf(digest, n, now, policy))
  }

  /** A promoted nutrient nobody could trace back to a memory. */
  predicate Untraceable(n: Nutrient) {
    UniqueSorted(MemoriesBehind([n])) == []
  }

  function Synthesize(digest: Digest, nutrients: seq<Nutrient>, now: string, policy: SynthesisPolicy)
    : Result<seq<Record>, SynthesisError>
  {
    if exists n :: n in Promoted(nutrients) && Untraceable(n) then Err(NoTraceableEvidence)
    else Ok(Consolidated(Records(digest, Promoted(nutrients), now, policy), SynthesisKey, MergeRecords))
  }

  function ForGovernance(): Record -> bool {
    (r: Record) => r.promotedToGovernanceMemory
  }

  method SynthesizeExecutiveMemory(digest: Digest, nutrients: seq<Nutrient>, now: string, policy: SynthesisPolicy)
    returns (syntheses: Result<seq<Record>, SynthesisError>, promotedToGovernanceMemory: seq<Record>)
    ensures syntheses == Synthesize(digest, nutrients, now, policy)
    ensures syntheses.Err? ==> promotedToGovernanceMemory == []
    ensures syntheses.Ok? ==> IsSelection(promotedToGovernanceMemory, syntheses.value, ForGovernance())
  {
    var promoted := Promoted(nutrients);
    if exists n :: n in promoted && Untraceable(n) {
      return Err(NoTraceableEvidence), [];
    }
    var consolidated := ConsolidateDuplicates(Records(digest, promoted, now, policy), SynthesisKey, MergeRecords);
    syntheses := Ok(consolidated);
    promotedToGovernanceMemory := Filter(consolidated, ForGovernance());
    FilterIsSelection(consolidated, ForGovernance());
  }

  // ---------------------------------------------------------------- lineage

  lemma LineageOfOne(n: Nutrient)
    ensures MemoriesBehind([n]) == n.sourceMemoryIds
    ensures Untraceable(n) <==> n.sourceMemoryIds == []
  {
    assert MemoriesBehind([n]) == [] + n.sourceMemoryIds;
    UniqueSortedProperties(n.sourceMemoryIds);
    if n.sourceMemoryIds != [] {
      assert n.sourceMemoryIds[0] in UniqueSorted(n.sourceMemoryIds);
    }
  }

  lemma UniqueSortedOne(s: string)
    ensures UniqueSorted([s]) == [s]
  {
    UniqueSortedFixed([s]);
  }

  /** What a record says about its nutrient. */
  lemma RecordLineage(digest: Digest, n: Nutrient, now: string, policy: SynthesisPolicy)
    requires UniqueSorted(n.sourceMemoryIds) == n.sourceMemoryIds
    ensures var r := RecordOf(digest, n, now, policy);
            && r.sourceNutrientIds == [n.nutrientId] && r.sourceMemoryIds == n.sourceMemoryIds
            && r.auditRequired == n.auditRequired && r.lineagePreserved
            && SynthesisKey(r) == CategoryName(r.category) + "::" + n.nutrientId
            && r.synthesisId == BuildId(digest, "synthesis-" + Lower(CategoryName(r.category)), SynthesisKey(r))
            && (r.auditRequired ==> r.promotedToGovernanceMemory)
  {
    LineageOfOne(n);
    UniqueSortedOne(n.nutrientId);
    assert Map([n], NutrientIdOf) == [n.nutrientId];
    assert Join([n.nutrientId], "|") == n.nutrientId + JoinTail([], "|") == n.nutrientId;
  }

  /** A record asks for review exactly when its nutrient is a contradiction cluster. */
  lemma RecordReview(digest: Digest, n: Nutrient, now: string, policy: SynthesisPolicy)
    ensures RecordOf(digest, n, now, policy).reviewRequired <==> n.nutrientType == ContradictionCluster
  {
    assert Has([n], ContradictionCluster) <==> n.nutrientType == ContradictionCluster by {
      assert n in [n];
    }
  }

  /** The key of a record, and with it its identifier, tells the nutrient. */
  lemma KeyTellsNutrient(digest: Digest, a: string, n: Nutrient, b: string, k: Nutrient)
    requires SoundDigest(digest)
    requires Identified(digest, n) && Identified(digest, k)
    requires a + n.nutrientId == b + k.nutrientId
    ensures NutrientKey(n) == NutrientKey(k)
  {
    var p, q := "nutrient-" + Lower(TypeName(n.nutrientType)), "nutrient-" + Lower(TypeName(k.nutrientType));
    assert a + n.nutrientId == BuildId(digest, a + p, NutrientKey(n));
    assert b + k.nutrientId == BuildId(digest, b + q, NutrientKey(k));
    BuildIdInjective(digest, a + p, NutrientKey(n), b + q, NutrientKey(k));
  }

  /** In the pipeline no two syntheses merge: there is one record per promoted nutrient, in order. */
  lemma OneRecordPerNutrient(
      digest: Digest, memories: seq<Memory>, nutrients: seq<Nutrient>, now: string, policy: SynthesisPolicy)
    requires SoundDigest(digest) && AllWellMade(digest, memories, nutrients) && DistinctNutrients(nutrients)
             && Distinct(nutrients)
    ensures Synthesize(digest, nutrients, now, policy).Ok? <==>
            forall n :: n in nutrients && n.promoted ==> n.sourceMemoryIds != []
    ensures Synthesize(digest, nutrients, now, policy).Ok? ==>
              Synthesize(digest, nutrients, now, policy).value == Records(digest, Promoted(nutrients), now, policy)
  {
    var promoted := Promoted(nutrients);
    var records := Records(digest, promoted, now, policy);
    FilterMembers(nutrients, (n: Nutrient) => n.promoted);
    FilterDistinct(nutrients, (n: Nutrient) => n.promoted);
    forall n ensures Untraceable(n) <==> n.sourceMemoryIds == [] {
      LineageOfOne(n);
    }
    forall i, j | 0 <= i < j < |records| ensures Map(records, SynthesisKey)[i] != Map(records, SynthesisKey)[j] {
      assert promoted[i] in promoted && promoted[j] in promoted;
      RecordLineage(digest, promoted[i], now, policy);
      RecordLineage(digest, promoted[j], now, policy);
      if SynthesisKey(records[i]) == SynthesisKey(records[j]) {
        KeyTellsNutrient(digest, CategoryName(records[i].category) + "::", promoted[i],
                         CategoryName(records[j].category) + "::", promoted[j]);
      }
    }
    ConsolidateDistinct(records, SynthesisKey, MergeRecords);
  }
}
