/** Which category a synthesis gets, which signals it gives, and what they say
    (protocol/memory/executive-synthesis-engine.ts and protocol/memory/cognitive-runtime.ts). */
module SignalRules {
  import opened Sequences
  import opened Wrappers
  import opened Text
  import opened Consolidation
  import opened Identifiers
  import opened Scores
  import opened Nutrients
  import opened Synthesis
  import opened RuntimeSignals

  // ---------------------------------------------------------------- the synthesis of a nutrient

  /** Synthesis looks at one nutrient at a time; its type decides first, then its weight and confidence. */
  predicate Categorises(n: Nutrient, policy: SynthesisPolicy, c: Category) {
    var heavyBlocker := n.nutrientType == RecurringBlocker
                        && n.memoryWeightAverage >= policy.recurringBlockerHighWeightThreshold;
    var surePerson := n.nutrientType == StakeholderSignal
      && n.confidenceScore >= policy.stakeholderHighConfidenceThreshold;
    var repeated := n.nutrientType == OperationalPattern
                    && n.evidenceCount as real >= policy.operationalPatternHighEvidenceThreshold;
    var typed := n.nutrientType in {ContradictionCluster, PolicyDependency, RiskEvolution, StrategicSummaryCandidate}
                 || heavyBlocker || surePerson || repeated;
    var governed := n.nutrientType == GovernanceLesson
      || n.memoryWeightAverage >= policy.governanceHeavyWeightThreshold;
    var believed := 1.0 >= policy.organizationalTruthMinEvidence
      && n.confidenceScore >= policy.organizationalTruthMinConfidence;
    match c
    case ContradictionRequiresReview => n.nutrientType == ContradictionCluster
    case RecurringFailureMode => heavyBlocker
    case StakeholderGravity => surePerson
    case PolicyImpact => n.nutrientType == PolicyDependency
    case StrategicRisk => n.nutrientType == RiskEvolution
    case ExecutionPattern => repeated
    case ExecutiveBriefingCandidate => n.nutrientType == StrategicSummaryCandidate
    case OrganizationalTruth => !typed && !governed && believed
    case GovernanceSignal => !typed && (governed || !believed)
    case StrategicOpportunity => false
  }

  lemma HasOne(n: Nutrient, t: NutrientType)
    ensures Has([n], t) <==> n.nutrientType == t
  {
    assert n in [n];
  }

  lemma AverageOfOne(x: real)
    ensures Average([x]) == x && Sum([x]) == x
  {
    var xs := [x];
    assert xs[..|xs| - 1] == [];
    assert Sum(xs) == Sum([]) + x;
  }

  lemma OfOne(n: Nutrient)
    ensures Average(Map([n], AverageWeightOf)) == n.memoryWeightAverage
    ensures Average(Map([n], ConfidenceOf)) == n.confidenceScore
    ensures Sum(Map([n], EvidenceOf)) == n.evidenceCount as real
  {
    assert Map([n], AverageWeightOf) == [n.memoryWeightAverage];
    assert Map([n], ConfidenceOf) == [n.confidenceScore];
    assert Map([n], EvidenceOf) == [n.evidenceCount as real];
    AverageOfOne(n.memoryWeightAverage);
    AverageOfOne(n.confidenceScore);
    AverageOfOne(n.evidenceCount as real);
  }

  /** Every nutrient has just the category its type, weight, confidence and evidence call for. */
  lemma CategoryIff(n: Nutrient, policy: SynthesisPolicy, c: Category)
    ensures Classify([n], policy) == c <==> Categorises(n, policy, c)
  {
    OfOne(n);
    forall t ensures Has([n], t) <==> n.nutrientType == t { HasOne(n, t); }
    assert n in [n];
    assert forall x :: x in [n] <==> x == n;
  }

  /** The confidence of a synthesis in hundredths, before rounding: 65 of the nutrient's, up to 20 for twenty
      memories, up to 15 for weight; never more than 100. */
  function SynthesisPoints(n: Nutrient): real {
    var points := 65.0 * n.confidenceScore + (if n.evidenceCount < 20 then n.evidenceCount as real else 20.0)
                  + (if n.memoryWeightAverage < 100.0 then 0.15 * n.memoryWeightAverage else 15.0);
    if points > 100.0 then 100.0 else points
  }

  lemma SynthesisConfidenceIs(n: Nutrient)
    ensures CalculateSynthesisConfidence([n]) == Round2(SynthesisPoints(n) / 100.0)
  {
    OfOne(n);
  }

  /** What the synthesis of a nutrient says of it: the figures, the review of contradictions, and governance memory
      for what is audit-required, confident, or well-founded organisational truth. */
  lemma RecordSays(digest: Digest, n: Nutrient, now: string, policy: SynthesisPolicy)
    ensures var r := RecordOf(digest, n, now, policy);
            && Categorises(n, policy, r.category)
            && r.createdAt == now == r.updatedAt && r.lineagePreserved
            && r.confidenceScore == Round2(SynthesisPoints(n) / 100.0) && r.evidenceCount == n.evidenceCount
            && r.averageNutrientConfidence == Round2(n.confidenceScore)
            && r.averageMemoryWeight == Round2(n.memoryWeightAverage)
            && r.auditRequired == n.auditRequired
            && (r.reviewRequired <==> n.nutrientType == ContradictionCluster)
            && (r.promotedToGovernanceMemory <==>
                  || n.auditRequired || r.confidenceScore >= policy.governancePromotionConfidenceThreshold
                  || (r.category == OrganizationalTruth
                      && n.evidenceCount as real >= policy.governancePromotionMinEvidenceCount))
  {
    OfOne(n);
    SynthesisConfidenceIs(n);
    CategoryIff(n, policy, Classify([n], policy));
    CategoryIff(n, policy, ContradictionRequiresReview);
  }

  /** Synthesis fails exactly when some promoted nutrient has no memory behind it. */
  lemma SynthesisFailsIff(digest: Digest, nutrients: seq<Nutrient>, now: string, policy: SynthesisPolicy)
    ensures Synthesize(digest, nutrients, now, policy).Err? <==>
            exists n :: n in nutrients && n.promoted && n.sourceMemoryIds == []
  {
    FilterMembers(nutrients, (n: Nutrient) => n.promoted);
    forall n ensures Untraceable(n) <==> n.sourceMemoryIds == [] {
      LineageOfOne(n);
    }
  }

  // ---------------------------------------------------------------- the signals of a synthesis

  /** Some other strategic risk rests on enough of the same memories and nutrients. */
  ghost predicate Converges(r: Record, syntheses: seq<Record>, policy: RuntimePolicy) {
    exists other :: other in syntheses && SharesEvidence(r, other, policy)
  }

  /** Evidence is shared by another strategic risk as often as its memories and nutrients are this one's. */
  lemma SharedEvidenceIs(r: Record, other: Record, policy: RuntimePolicy)
    ensures SharesEvidence(r, other, policy) <==>
            && other.synthesisId != r.synthesisId && other.category == StrategicRisk
            && (CountIn(other.sourceMemoryIds, r.sourceMemoryIds)
                + CountIn(other.sourceNutrientIds, r.sourceNutrientIds)) as real
               >= policy.riskConvergenceMinSharedEvidence
  {
    CountIsFilter(other.sourceMemoryIds, r.sourceMemoryIds, id => id in r.sourceMemoryIds);
    CountIsFilter(other.sourceNutrientIds, r.sourceNutrientIds, id => id in r.sourceNutrientIds);
  }

  function CountIn(ids: seq<string>, others: seq<string>): nat {
    if ids == [] then 0 else CountIn(DropLast(ids), others) + if Last(ids) in others then 1 else 0
  }

  lemma {:induction false} CountIsFilter(ids: seq<string>, others: seq<string>, p: string -> bool)
    requires forall id :: p(id) <==> id in others
    ensures |Filter(ids, p)| == CountIn(ids, others)
  {
    if ids != [] {
      CountIsFilter(DropLast(ids), others, p);
    }
  }

  /** What a signal is raised for, apart from readiness for AI context. */
  ghost predicate Occasions(
      r: Record, syntheses: seq<Record>, byId: map<string, Nutrient>, policy: RuntimePolicy, t: SignalType) {
    match t
    case GovernanceContradiction => r.category == ContradictionRequiresReview
    case HumanReviewRequired => r.category == ContradictionRequiresReview
    case RecurringBlockerEscalation => r.category == RecurringFailureMode
    case StakeholderGravityShift => r.category == StakeholderGravity
    case PolicyDependencyPressure => r.category == PolicyImpact
    case ExecutionPatternStabilized => r.category == ExecutionPattern
    case GovernanceMemoryCandidate => r.promotedToGovernanceMemory
    case OperationalTruthDrift =>
      && r.category == OrganizationalTruth
      && (r.confidenceScore <= policy.truthDriftConfidenceDropThreshold || Contradicted(r, byId))
    case StrategicRiskConvergence => r.category == StrategicRisk && Converges(r, syntheses, policy)
    case AiContextReady => false
  }

  ghost predicate Contradicted(r: Record, byId: map<string, Nutrient>) {
    exists id :: id in r.sourceNutrientIds && id in byId && byId[id].nutrientType == ContradictionCluster
  }

  lemma PushedIff(r: Record, syntheses: seq<Record>, byId: map<string, Nutrient>, policy: RuntimePolicy, t: SignalType)
    ensures t in PushedTypes(r, syntheses, byId, policy) <==> Occasions(r, syntheses, byId, policy, t)
  {
    PushedMembers(r, syntheses, byId, policy, t);
    assert Drifts(r, byId, policy) <==>
           r.confidenceScore <= policy.truthDriftConfidenceDropThreshold || Contradicted(r, byId);
  }

  lemma PushedMembers(
      r: Record, syntheses: seq<Record>, byId: map<string, Nutrient>, policy: RuntimePolicy, t: SignalType)
    ensures t in PushedTypes(r, syntheses, byId, policy) <==>
            || (t in {GovernanceContradiction, HumanReviewRequired} && r.category == ContradictionRequiresReview)
            || (t == RecurringBlockerEscalation && r.category == RecurringFailureMode)
            || (t == StakeholderGravityShift && r.category == StakeholderGravity)
            || (t == PolicyDependencyPressure && r.category == PolicyImpact)
            || (t == ExecutionPatternStabilized && r.category == ExecutionPattern)
            || (t == GovernanceMemoryCandidate && r.promotedToGovernanceMemory)
            || (t == OperationalTruthDrift && r.category == OrganizationalTruth && Drifts(r, byId, policy))
            || (t == StrategicRiskConvergence && r.category == StrategicRisk && Converges(r, syntheses, policy))
  {
    var review: seq<SignalType> :=
      if r.category == ContradictionRequiresReview then [GovernanceContradiction, HumanReviewRequired] else [];
    var drifts := r.category == OrganizationalTruth && Drifts(r, byId, policy);
    var converges := r.category == StrategicRisk
                     && exists other :: other in syntheses && SharesEvidence(r, other, policy);
    assert converges <==> r.category == StrategicRisk && Converges(r, syntheses, policy);
    InIf(r.category == RecurringFailureMode, RecurringBlockerEscalation, t);
    InIf(r.category == StakeholderGravity, StakeholderGravityShift, t);
    InIf(r.category == PolicyImpact, PolicyDependencyPressure, t);
    InIf(r.category == ExecutionPattern, ExecutionPatternStabilized, t);
    InIf(r.promotedToGovernanceMemory, GovernanceMemoryCandidate, t);
    InIf(drifts, OperationalTruthDrift, t);
    InIf(converges, StrategicRiskConvergence, t);
    InSum(review, If(r.category == RecurringFailureMode, RecurringBlockerEscalation),
          If(r.category == StakeholderGravity, StakeholderGravityShift),
          If(r.category == PolicyImpact, PolicyDependencyPressure),
          If(r.category == ExecutionPattern, ExecutionPatternStabilized),
          If(r.promotedToGovernanceMemory, GovernanceMemoryCandidate), If(drifts, OperationalTruthDrift),
          If(converges, StrategicRiskConvergence), t);
  }

  lemma InIf(condition: bool, pushed: SignalType, t: SignalType)
    ensures t in If(condition, pushed) <==> condition && t == pushed
  {
  }

  lemma InSum<T>(a: seq<T>, b: seq<T>, c: seq<T>, d: seq<T>, e: seq<T>, f: seq<T>, g: seq<T>, h: seq<T>, x: T)
    ensures x in a + b + c + d + e + f + g + h <==>
            x in a || x in b || x in c || x in d || x in e || x in f || x in g || x in h
  {
  }

  /** A synthesis gives just the types of signals it is an occasion for. */
  lemma SignalTypesIff(
      r: Record, syntheses: seq<Record>, byId: map<string, Nutrient>, policy: RuntimePolicy, t: SignalType)
    ensures t in SignalTypes(r, syntheses, byId, policy) <==> Occasions(r, syntheses, byId, policy, t)
  {
    PushedIff(r, syntheses, byId, policy, t);
    UniqueByNameProperties(PushedTypes(r, syntheses, byId, policy));
  }

  /** Confidence and severity of the types, in hundredths: what is added to the synthesis' confidence, and the base. */
  function BoostOf(t: SignalType): int {
    match t
    case GovernanceContradiction => 8
    case HumanReviewRequired => 7
    case StrategicRiskConvergence => 6
    case RecurringBlockerEscalation => 5
    case GovernanceMemoryCandidate => 5
    case OperationalTruthDrift => 4
    case PolicyDependencyPressure => 4
    case StakeholderGravityShift => 3
    case ExecutionPatternStabilized => 3
    case AiContextReady => 2
  }

  function BaseOf(t: SignalType): int {
    match t
    case GovernanceContradiction => 95
    case HumanReviewRequired => 90
    case StrategicRiskConvergence => 85
    case RecurringBlockerEscalation => 75
    case OperationalTruthDrift => 70
    case PolicyDependencyPressure => 68
    case StakeholderGravityShift => 50
    case ExecutionPatternStabilized => 40
    case GovernanceMemoryCandidate => 35
    case AiContextReady => 20
  }

  function UpToOne(x: real): real {
    if x > 1.0 then 1.0 else x
  }

  lemma FiguresAre(r: Record, t: SignalType, confidence: real)
    ensures SignalConfidence(r, t) == Round2(UpToOne(r.confidenceScore + BoostOf(t) as real / 100.0))
    ensures SignalSeverity(t, confidence) == Round2(UpToOne(0.007 * BaseOf(t) as real + 0.3 * confidence))
  {
  }

  /** What a signal of a synthesis says of it. */
  ghost predicate Says(c: Context, r: Record, s: Signal) {
    SaysLineage(c, r, s) && SaysFigures(c, r, s)
  }

  ghost predicate SaysLineage(c: Context, r: Record, s: Signal) {
    && s.sourceSynthesisIds == [r.synthesisId] && s.createdAt == c.now
    && (forall id :: id in s.sourceNutrientIds <==> id in r.sourceNutrientIds)
    && (forall id :: id in s.sourceMemoryIds <==>
          id in r.sourceMemoryIds || exists k ::
            k in r.sourceNutrientIds && k in c.byId && id in c.byId[k].sourceMemoryIds)
    && s.auditRequired == r.auditRequired && s.lineagePreserved == r.lineagePreserved
  }

  /** A ready signal is never for review and always eligible, and takes its severity from the synthesis' own
      confidence. */
  predicate SaysFigures(c: Context, r: Record, s: Signal) {
    var ready := s.signalType == AiContextReady;
    && s.confidenceScore == Round2(UpToOne(r.confidenceScore + BoostOf(s.signalType) as real / 100.0))
    && s.severity == Round2(UpToOne(0.007 * BaseOf(s.signalType) as real
                                    + 0.3 * if ready then r.confidenceScore else s.confidenceScore))
    && (s.humanReviewRequired <==>
          && !ready
          && (r.reviewRequired || s.signalType in {HumanReviewRequired, GovernanceContradiction}
              || s.severity >= c.policy.humanReviewSeverityThreshold))
    && (s.aiContextEligible <==>
          || ready
          || (s.confidenceScore >= c.policy.aiContextConfidenceThreshold && r.lineagePreserved
              && !s.humanReviewRequired))
  }

  lemma {:induction false} MemoriesOfMembers(ids: seq<string>, byId: map<string, Nutrient>, id: string)
    ensures id in MemoriesOf(ids, byId) <==> exists k :: k in ids && k in byId && id in byId[k].sourceMemoryIds
  {
    if ids != [] {
      MemoriesOfMembers(DropLast(ids), byId, id);
      assert ids == DropLast(ids) + [Last(ids)];
    }
  }

  lemma LineageMembers(r: Record, byId: map<string, Nutrient>, id: string)
    ensures id in MemoryLineage(r, byId) <==>
            id in r.sourceMemoryIds || exists k ::
              k in r.sourceNutrientIds && k in byId && id in byId[k].sourceMemoryIds
  {
    UniqueSortedProperties(r.sourceNutrientIds);
    UniqueSortedProperties(r.sourceMemoryIds + MemoriesOf(UniqueSorted(r.sourceNutrientIds), byId));
    MemoriesOfMembers(UniqueSorted(r.sourceNutrientIds), byId, id);
  }

  lemma LineageSays(c: Context, r: Record, s: Signal)
    requires s.sourceNutrientIds == UniqueSorted(r.sourceNutrientIds) && s.sourceMemoryIds == MemoryLineage(r, c.byId)
    ensures forall id :: id in s.sourceNutrientIds <==> id in r.sourceNutrientIds
    ensures forall id :: id in s.sourceMemoryIds <==>
              id in r.sourceMemoryIds || exists k ::
                k in r.sourceNutrientIds && k in c.byId && id in c.byId[k].sourceMemoryIds
  {
    UniqueSortedProperties(r.sourceNutrientIds);
    forall id ensures id in s.sourceMemoryIds <==>
                      || id in r.sourceMemoryIds
                      || exists k :: k in r.sourceNutrientIds && k in c.byId && id in c.byId[k].sourceMemoryIds {
      LineageMembers(r, c.byId, id);
    }
  }

  lemma TypedSignalSays(c: Context, r: Record, t: SignalType)
    requires t != AiContextReady
    ensures TypedSignal(c, r, t).signalType == t && Says(c, r, TypedSignal(c, r, t))
  {
    var s := TypedSignal(c, r, t);
    assert SaysFigures(c, r, s) by {
      FiguresAre(r, t, s.confidenceScore);
    }
    LineageSays(c, r, s);
  }

  lemma ReadyFigures(c: Context, r: Record)
    ensures SaysFigures(c, r, ReadySignal(c, r))
  {
    FiguresAre(r, AiContextReady, r.confidenceScore);
  }

  lemma ReadySignalSays(c: Context, r: Record)
    ensures ReadySignal(c, r).signalType == AiContextReady && Says(c, r, ReadySignal(c, r))
  {
    ReadyFigures(c, r);
    LineageSays(c, r, ReadySignal(c, r));
  }

  /** The signal types of a synthesis that are raised: those it is an occasion for, if confident enough, and
      readiness for AI context if the synthesis itself is confident, traced and free of review. */
  ghost predicate Raised(c: Context, r: Record, t: SignalType) {
    if t == AiContextReady then
      r.confidenceScore >= c.policy.aiContextConfidenceThreshold && r.lineagePreserved && !r.reviewRequired
    else
      && Occasions(r, c.syntheses, c.byId, c.policy, t)
      && Round2(UpToOne(r.confidenceScore + BoostOf(t) as real / 100.0)) >= c.policy.minimumSignalConfidence
  }

  lemma KeptTypes(c: Context, r: Record, t: SignalType)
    ensures t in Filter(SignalTypes(r, c.syntheses, c.byId, c.policy), Confident(c, r)) <==>
            t != AiContextReady && Raised(c, r, t)
  {
    var types := SignalTypes(r, c.syntheses, c.byId, c.policy);
    SignalTypesDistinct(r, c.syntheses, c.byId, c.policy);
    FilterMembers(types, Confident(c, r));
    SignalTypesIff(r, c.syntheses, c.byId, c.policy, t);
    FiguresAre(r, t, 0.0);
  }

  /** The signals, one by one: a type each, and what it says. */
  ghost predicate OneEach(c: Context, r: Record, signals: seq<Signal>, types: seq<SignalType>) {
    && |signals| == |types| && Distinct(types)
    && forall i :: 0 <= i < |types| ==> signals[i].signalType == types[i] && Says(c, r, signals[i])
  }

  lemma TypedOneEach(c: Context, r: Record)
    ensures var types := SignalTypes(r, c.syntheses, c.byId, c.policy);
            OneEach(c, r, TypedSignals(c, r, types), Filter(types, Confident(c, r)))
  {
    var types := SignalTypes(r, c.syntheses, c.byId, c.policy);
    var kept := Filter(types, Confident(c, r));
    SignalTypesDistinct(r, c.syntheses, c.byId, c.policy);
    FilterDistinct(types, Confident(c, r));
    forall i | 0 <= i < |kept|
      ensures TypedSignals(c, r, types)[i].signalType == kept[i] && Says(c, r, TypedSignals(c, r, types)[i])
    {
      assert kept[i] in kept;
      KeptTypes(c, r, kept[i]);
      TypedSignalSays(c, r, kept[i]);
    }
  }

  /** A synthesis raises one signal of each such type and no other, and each says what it should. */
  lemma SignalsOfSay(c: Context, r: Record) returns (types: seq<SignalType>)
    ensures OneEach(c, r, SignalsOf(c, r), types)
    ensures forall t :: t in types <==> Raised(c, r, t)
  {
    var all := SignalTypes(r, c.syntheses, c.byId, c.policy);
    var kept := Filter(all, Confident(c, r));
    TypedOneEach(c, r);
    ReadySignalSays(c, r);
    forall t ensures t in kept <==> t != AiContextReady && Raised(c, r, t) { KeptTypes(c, r, t); }
    types := kept + if Raised(c, r, AiContextReady) then [AiContextReady] else [];
    DistinctAppend(kept, AiContextReady);
    ReadyFollows(c, r, TypedSignals(c, r, all), kept);
  }

  lemma ReadyFollows(c: Context, r: Record, signals: seq<Signal>, types: seq<SignalType>)
    requires OneEach(c, r, signals, types) && AiContextReady !in types
    ensures OneEach(c, r, signals + ReadySignals(c, r),
                    types + if Raised(c, r, AiContextReady) then [AiContextReady] else [])
  {
    ReadySignalSays(c, r);
    DistinctAppend(types, AiContextReady);
  }

  // ---------------------------------------------------------------- merging

  function EvidenceTotal(group: seq<Record>): nat {
    if group == [] then 0 else EvidenceTotal(DropLast(group)) + Last(group).evidenceCount
  }

  /** Merged syntheses add up their evidence, keep the highest confidence, the latest update and every flag, and
      take the rest from the first. */
  lemma {:induction false} FoldRecord(group: seq<Record>)
    requires group != []
    ensures var r := Fold(group, MergeRecords);
            && r.evidenceCount == EvidenceTotal(group)
            && (forall x :: x in group ==> x.confidenceScore <= r.confidenceScore && StrLe(x.updatedAt, r.updatedAt))
            && (exists x :: x in group && x.confidenceScore == r.confidenceScore)
            && (exists x :: x in group && x.updatedAt == r.updatedAt)
            && (r.auditRequired <==> exists x :: x in group && x.auditRequired)
            && (r.reviewRequired <==> exists x :: x in group && x.reviewRequired)
            && (r.promotedToGovernanceMemory <==> exists x :: x in group && x.promotedToGovernanceMemory)
            && SameRecordElse(r, group[0])
  {
    StrOrder();
    if |group| > 1 {
      FoldRecord(DropLast(group));
      assert group == DropLast(group) + [Last(group)];
    } else {
      assert group == [group[0]] && DropLast(group) == [];
      LexTotal(CodeUnit, group[0].updatedAt, group[0].updatedAt);
    }
  }

  predicate SameRecordElse(r: Record, x: Record) {
    && r.synthesisId == x.synthesisId && r.category == x.category && r.createdAt == x.createdAt
    && r.sourceNutrientIds == x.sourceNutrientIds && r.sourceMemoryIds == x.sourceMemoryIds
    && r.averageNutrientConfidence == x.averageNutrientConfidence && r.averageMemoryWeight == x.averageMemoryWeight
    && r.lineagePreserved == x.lineagePreserved
  }

  /** Merged signals unite their nutrients, keep the highest confidence and severity, are eligible if one of them
      is, and take the rest from the first; their memories and other flags are in `FoldSignalLineage` and
      `FoldSignalFlags`. */
  lemma {:induction false} FoldSignal(group: seq<Signal>, id: string)
    requires group != []
    ensures var s := Fold(group, MergeSignals);
            && (id in s.sourceNutrientIds <==> exists x :: x in group && id in x.sourceNutrientIds)
            && (forall x :: x in group ==> x.confidenceScore <= s.confidenceScore && x.severity <= s.severity)
            && (exists x :: x in group && x.confidenceScore == s.confidenceScore)
            && (exists x :: x in group && x.severity == s.severity)
            && (s.aiContextEligible <==> exists x :: x in group && x.aiContextEligible)
            && s.signalId == group[0].signalId && s.signalType == group[0].signalType
            && s.sourceSynthesisIds == group[0].sourceSynthesisIds && s.createdAt == group[0].createdAt
            && s.lineagePreserved == group[0].lineagePreserved
  {
    if |group| > 1 {
      var front, last := DropLast(group), Last(group);
      FoldSignal(front, id);
      assert group == front + [last];
      UniqueSortedProperties(Fold(front, MergeSignals).sourceNutrientIds + last.sourceNutrientIds);
    } else {
      assert group == [group[0]];
    }
  }
}
