/** Runtime signals from syntheses (protocol/memory/cognitive-runtime.ts). */
module RuntimeSignals {
  import opened Sequences
  import opened StableSorting
  import opened Text
  import opened Consolidation
  import opened Identifiers
  import opened Scores
  import opened Nutrients
  import opened Synthesis

  datatype SignalType =
    | OperationalTruthDrift | StakeholderGravityShift | RecurringBlockerEscalation | GovernanceContradiction
    | StrategicRiskConvergence | PolicyDependencyPressure | ExecutionPatternStabilized | GovernanceMemoryCandidate
    | AiContextReady | HumanReviewRequired

  datatype RuntimePolicy = RuntimePolicy(
    aiContextConfidenceThreshold: real, humanReviewSeverityThreshold: real, truthDriftConfidenceDropThreshold: real,
    riskConvergenceMinSharedEvidence: real, minimumSignalConfidence: real)

  datatype Signal = Signal(
    signalId: string, signalType: SignalType, sourceSynthesisIds: seq<string>, sourceNutrientIds: seq<string>,
    sourceMemoryIds: seq<string>, createdAt: string, confidenceScore: real, severity: real, auditRequired: bool,
    lineagePreserved: bool, humanReviewRequired: bool, aiContextEligible: bool)

  function SignalName(t: SignalType): string {
    match t
    case OperationalTruthDrift => "OPERATIONAL_TRUTH_DRIFT"
    case StakeholderGravityShift => "STAKEHOLDER_GRAVITY_SHIFT"
    case RecurringBlockerEscalation => "RECURRING_BLOCKER_ESCALATION"
    case GovernanceContradiction => "GOVERNANCE_CONTRADICTION"
    case StrategicRiskConvergence => "STRATEGIC_RISK_CONVERGENCE"
    case PolicyDependencyPressure => "POLICY_DEPENDENCY_PRESSURE"
    case ExecutionPatternStabilized => "EXECUTION_PATTERN_STABILIZED"
    case GovernanceMemoryCandidate => "GOVERNANCE_MEMORY_CANDIDATE"
    case AiContextReady => "AI_CONTEXT_READY"
    case HumanReviewRequired => "HUMAN_REVIEW_REQUIRED"
  }

  lemma SignalNameInjective(s: SignalType, t: SignalType)
    requires SignalName(s) == SignalName(t)
    ensures s == t
  {
    assert |SignalName(s)| == |SignalName(t)| && SignalName(s)[0] == SignalName(t)[0];
  }

  function Boost(t: SignalType): real {
    match t
    case OperationalTruthDrift => 0.04
    case StakeholderGravityShift => 0.03
    case RecurringBlockerEscalation => 0.05
    case GovernanceContradiction => 0.08
    case StrategicRiskConvergence => 0.06
    case PolicyDependencyPressure => 0.04
    case ExecutionPatternStabilized => 0.03
    case GovernanceMemoryCandidate => 0.05
    case AiContextReady => 0.02
    case HumanReviewRequired => 0.07
  }

  function BaseSeverity(t: SignalType): real {
    match t
    case OperationalTruthDrift => 0.7
    case StakeholderGravityShift => 0.5
    case RecurringBlockerEscalation => 0.75
    case GovernanceContradiction => 0.95
    case StrategicRiskConvergence => 0.85
    case PolicyDependencyPressure => 0.68
    case ExecutionPatternStabilized => 0.4
    case GovernanceMemoryCandidate => 0.35
    case AiContextReady => 0.2
    case HumanReviewRequired => 0.9
  }

  function SignalConfidence(r: Record, t: SignalType): real {
    Round2(Min(1.0, r.confidenceScore + Boost(t)))
  }

  function SignalSeverity(t: SignalType, confidenceScore: real): real {
    Round2(Min(1.0, BaseSeverity(t) * 0.7 + confidenceScore * 0.3))
  }

  predicate ShouldRequireHumanReview(r: Record, t: SignalType, severity: real, policy: RuntimePolicy) {
    r.reviewRequired || t == HumanReviewRequired || t == GovernanceContradiction
      || severity >= policy.humanReviewSeverityThreshold
  }

  predicate ShouldBeAiContextEligible(
      r: Record, confidenceScore: real, humanReviewRequired: bool, policy: RuntimePolicy) {
    confidenceScore >= policy.aiContextConfidenceThreshold && r.lineagePreserved && !humanReviewRequired
  }

  // ---------------------------------------------------------------- lineage

  /** `new Map(nutrients.map(n => [n.nutrientId, n]))`: the last nutrient with an identifier wins. */
  function IndexById(nutrients: seq<Nutrient>): map<string, Nutrient> {
    if nutrients == [] then map[] else IndexById(DropLast(nutrients))[Last(nutrients).nutrientId := Last(nutrients)]
  }

  function MemoriesOf(ids: seq<string>, byId: map<string, Nutrient>): seq<string> {
    if ids == [] then []
    else MemoriesOf(DropLast(ids), byId) + if Last(ids) in byId then byId[Last(ids)].sourceMemoryIds else []
  }

  function MemoryLineage(r: Record, byId: map<string, Nutrient>): seq<string> {
    UniqueSorted(r.sourceMemoryIds + MemoriesOf(UniqueSorted(r.sourceNutrientIds), byId))
  }

  function SignalMaterial(t: SignalType, r: Record): string {
    SignalName(t) + "::" + Join([r.synthesisId], "|") + "::" + Join(UniqueSorted(r.sourceNutrientIds), "|")
  }

  function NewSignal(
      digest: Digest, t: SignalType, r: Record, byId: map<string, Nutrient>, now: string, confidenceScore: real,
      severity: real,
      humanReviewRequired: bool, aiContextEligible: bool): Signal {
    Signal(BuildId(digest, "signal", SignalMaterial(t, r)), t, [r.synthesisId], UniqueSorted(r.sourceNutrientIds),
           MemoryLineage(r, byId), now, confidenceScore, severity, r.auditRequired, r.lineagePreserved,
           humanReviewRequired, aiContextEligible)
  }

  // ---------------------------------------------------------------- classification

  predicate SharesEvidence(r: Record, other: Record, policy: RuntimePolicy) {
    && other.synthesisId != r.synthesisId && other.category == StrategicRisk
    && (|Filter(other.sourceMemoryIds, id => id in r.sourceMemoryIds)|
        + |Filter(other.sourceNutrientIds, id => id in r.sourceNutrientIds)|) as real
       >= policy.riskConvergenceMinSharedEvidence
  }

  predicate Drifts(r: Record, byId: map<string, Nutrient>, policy: RuntimePolicy) {
    || r.confidenceScore <= policy.truthDriftConfidenceDropThreshold
    || exists id :: id in r.sourceNutrientIds && id in byId && byId[id].nutrientType == ContradictionCluster
  }

  function If(condition: bool, t: SignalType): seq<SignalType> {
    if condition then [t] else []
  }

  /** The types in the order they are pushed. */
  function PushedTypes(
      r: Record, syntheses: seq<Record>, byId: map<string, Nutrient>, policy: RuntimePolicy): seq<SignalType> {
    (if r.category == ContradictionRequiresReview then [GovernanceContradiction, HumanReviewRequired] else [])
    + If(r.category == RecurringFailureMode, RecurringBlockerEscalation)
    + If(r.category == StakeholderGravity, StakeholderGravityShift)
    + If(r.category == PolicyImpact, PolicyDependencyPressure)
    + If(r.category == ExecutionPattern, ExecutionPatternStabilized)
    + If(r.promotedToGovernanceMemory, GovernanceMemoryCandidate)
    + If(r.category == OrganizationalTruth && Drifts(r, byId, policy), OperationalTruthDrift)
    + If(r.category == StrategicRisk && exists other ::
         other in syntheses && SharesEvidence(r, other, policy), StrategicRiskConvergence)
  }

  predicate NameLe(s: SignalType, t: SignalType) {
    StrLe(SignalName(s), SignalName(t))
  }

  function SignalTypes(
      r: Record, syntheses: seq<Record>, byId: map<string, Nutrient>, policy: RuntimePolicy): seq<SignalType> {
    UniqueByName(PushedTypes(r, syntheses, byId, policy))
  }

  /** `[...new Set(types)].sort()` */
  function UniqueByName(types: seq<SignalType>): seq<SignalType> {
    Sort(Dedupe(types), NameLe)
  }

  lemma NameLeIsTotal()
    ensures TotalPreorder(NameLe)
  {
    StrOrder();
  }

  lemma UniqueByNameProperties(types: seq<SignalType>)
    ensures Distinct(UniqueByName(types))
    ensures forall t :: t in UniqueByName(types) <==> t in types
  {
    NameLeIsTotal();
    DedupeProperties(types);
    SortProperties(Dedupe(types), NameLe);
    SortMembers(Dedupe(types), NameLe);
    DistinctPermutation(Dedupe(types), UniqueByName(types));
  }

  lemma NeverPushedReady(r: Record, syntheses: seq<Record>, byId: map<string, Nutrient>, policy: RuntimePolicy)
    ensures AiContextReady !in PushedTypes(r, syntheses, byId, policy)
  {
  }

  /** Signal types come without repetition, and readiness for AI context is never among them. */
  lemma SignalTypesDistinct(r: Record, syntheses: seq<Record>, byId: map<string, Nutrient>, policy: RuntimePolicy)
    ensures Distinct(SignalTypes(r, syntheses, byId, policy))
    ensures AiContextReady !in SignalTypes(r, syntheses, byId, policy)
  {
    UniqueByNameProperties(PushedTypes(r, syntheses, byId, policy));
    NeverPushedReady(r, syntheses, byId, policy);
  }

  // ---------------------------------------------------------------- generation

  datatype Context = Context(
    digest: Digest, syntheses: seq<Record>, byId: map<string, Nutrient>, now: string, policy: RuntimePolicy)

  function TypedSignal(c: Context, r: Record, t: SignalType): Signal {
    var confidenceScore := SignalConfidence(r, t);
    var severity := SignalSeverity(t, confidenceScore);
    var humanReviewRequired := ShouldRequireHumanReview(r, t, severity, c.policy);
    NewSignal(c.digest, t, r, c.byId, c.now, confidenceScore, severity, humanReviewRequired,
              ShouldBeAiContextEligible(r, confidenceScore, humanReviewRequired, c.policy))
  }

  /** Its severity is computed from the synthesis' own confidence, without the boost. */
  function ReadySignal(c: Context, r: Record): Signal {
    NewSignal(c.digest, AiContextReady, r, c.byId, c.now, SignalConfidence(r, AiContextReady),
              SignalSeverity(AiContextReady, r.confidenceScore), false, true)
  }

  function Confident(c: Context, r: Record): SignalType -> bool {
    t => SignalConfidence(r, t) >= c.policy.minimumSignalConfidence
  }

  function TypedSignals(c: Context, r: Record, types: seq<SignalType>): seq<Signal> {
    Map(Filter(types, Confident(c, r)), t => TypedSignal(c, r, t))
  }

  function ReadySignals(c: Context, r: Record): seq<Signal> {
    if ShouldBeAiContextEligible(r, r.confidenceScore, r.reviewRequired, c.policy) then [ReadySignal(c, r)] else []
  }

  function SignalsOf(c: Context, r: Record): seq<Signal> {
    TypedSignals(c, r, SignalTypes(r, c.syntheses, c.byId, c.policy)) + ReadySignals(c, r)
  }

  function RawSignals(c: Context, syntheses: seq<Record>): seq<Signal> {
    if syntheses == [] then [] else RawSignals(c, DropLast(syntheses)) + SignalsOf(c, Last(syntheses))
  }

  function SignalKey(s: Signal): string {
    SignalName(s.signalType) + "::" + Join(s.sourceSynthesisIds, "|")
  }

  function MergeSignals(existing: Signal, s: Signal): Signal {
    existing.(sourceNutrientIds := UniqueSorted(existing.sourceNutrientIds + s.sourceNutrientIds),
              sourceMemoryIds := UniqueSorted(existing.sourceMemoryIds + s.sourceMemoryIds),
              confidenceScore := Max(existing.confidenceScore, s.confidenceScore),
              severity := Max(existing.severity, s.severity),
              auditRequired := existing.auditRequired || s.auditRequired,
              humanReviewRequired := existing.humanReviewRequired || s.humanReviewRequired,
              aiContextEligible := existing.aiContextEligible || s.aiContextEligible)
  }

  function Generate(
      digest: Digest, syntheses: seq<Record>, nutrients: seq<Nutrient>, now: string,
      policy: RuntimePolicy): seq<Signal> {
    Consolidated(RawSignals(Context(digest, syntheses, IndexById(nutrients), now, policy), syntheses), SignalKey,
                 MergeSignals)
  }

  method PushTypedSignals(c: Context, r: Record, types: seq<SignalType>) returns (signals: seq<Signal>)
    ensures signals == TypedSignals(c, r, types)
  {
    signals := [];
    for j := 0 to |types|
      invariant signals == TypedSignals(c, r, types[..j])
    {
      FilterAppend(types[..j], types[j], Confident(c, r));
      assert types[..j + 1] == types[..j] + [types[j]];
      var confidenceScore := SignalConfidence(r, types[j]);
      if confidenceScore < c.policy.minimumSignalConfidence {
        continue;
      }
      signals := signals + [TypedSignal(c, r, types[j])];
    }
    assert types[..|types|] == types;
  }

  method GenerateRuntimeSignals(
      digest: Digest, syntheses: seq<Record>, nutrients: seq<Nutrient>, now: string, policy: RuntimePolicy)
    returns (r: seq<Signal>)
    ensures r == Generate(digest, syntheses, nutrients, now, policy)
  {
    var c := Context(digest, syntheses, IndexById(nutrients), now, policy);
    var signals: seq<Signal> := [];
    for i := 0 to |syntheses|
      invariant signals == RawSignals(c, syntheses[..i])
    {
      assert DropLast(syntheses[..i + 1]) == syntheses[..i];
      var typed := PushTypedSignals(c, syntheses[i], SignalTypes(syntheses[i], syntheses, c.byId, policy));
      signals := signals + (typed + ReadySignals(c, syntheses[i]));
    }
    assert syntheses[..|syntheses|] == syntheses;
    r := ConsolidateDuplicates(signals, SignalKey, MergeSignals);
  }

  /** Merging signals keeps every flag any of them had. */
  lemma {:induction false} FoldSignalFlags(group: seq<Signal>)
    requires group != []
    ensures Fold(group, MergeSignals).auditRequired <==> exists x :: x in group && x.auditRequired
    ensures Fold(group, MergeSignals).humanReviewRequired <==> exists x :: x in group && x.humanReviewRequired
  {
    if |group| > 1 {
      FoldSignalFlags(DropLast(group));
      assert group == DropLast(group) + [Last(group)];
    } else {
      assert group == [group[0]];
    }
  }

  /** And unites lineage. */
  lemma {:induction false} FoldSignalLineage(group: seq<Signal>, id: string)
    requires group != []
    ensures id in Fold(group, MergeSignals).sourceMemoryIds <==> exists x :: x in group && id in x.sourceMemoryIds
  {
    if |group| > 1 {
      var front, last := DropLast(group), Last(group);
      FoldSignalLineage(front, id);
      assert group == front + [last];
      UniqueSortedProperties(Fold(front, MergeSignals).sourceMemoryIds + last.sourceMemoryIds);
    } else {
      assert group == [group[0]];
    }
  }

  // ---------------------------------------------------------------- signals of a pipeline run

  /** What a record and the nutrient behind it share. */
  ghost predicate Traces(digest: Digest, r: Record, n: Nutrient) {
    && Identified(digest, n) && UniqueSorted(n.sourceMemoryIds) == n.sourceMemoryIds
    && r.sourceNutrientIds == [n.nutrientId] && r.sourceMemoryIds == n.sourceMemoryIds
    && r.auditRequired == n.auditRequired && (r.reviewRequired <==> n.nutrientType == ContradictionCluster)
    && r.synthesisId == BuildId(digest, "synthesis-" + Lower(CategoryName(r.category)),
                                CategoryName(r.category) + "::" + n.nutrientId)
  }

  /** What a signal and the nutrient behind it share. */
  ghost predicate Reports(digest: Digest, s: Signal, r: Record, n: Nutrient) {
    && Traces(digest, r, n)
    && s.sourceSynthesisIds == [r.synthesisId]
    && s.signalId == BuildId(digest, "signal", SignalMaterial(s.signalType, r))
    && s.sourceNutrientIds == [n.nutrientId] && s.sourceMemoryIds == n.sourceMemoryIds
       && s.auditRequired == n.auditRequired
    && (r.reviewRequired ==> NeedsReview(s))
  }

  /** The signal goes through a human and is not offered as ready context. */
  predicate NeedsReview(s: Signal) {
    s.humanReviewRequired && s.signalType != AiContextReady
  }

  /** A looked-up nutrient is the one the synthesis came from. */
  ghost predicate Agrees(byId: map<string, Nutrient>, n: Nutrient) {
    n.nutrientId in byId ==> byId[n.nutrientId] == n
  }

  lemma {:induction false} IndexFinds(nutrients: seq<Nutrient>)
    ensures forall id :: id in IndexById(nutrients) ==>
              IndexById(nutrients)[id] in nutrients && IndexById(nutrients)[id].nutrientId == id
  {
    if nutrients != [] {
      IndexFinds(DropLast(nutrients));
      assert nutrients == DropLast(nutrients) + [Last(nutrients)];
    }
  }

  lemma LineageIsTheNutrients(digest: Digest, r: Record, n: Nutrient, byId: map<string, Nutrient>)
    requires Traces(digest, r, n) && Agrees(byId, n)
    ensures MemoryLineage(r, byId) == n.sourceMemoryIds
  {
    UniqueSortedOne(n.nutrientId);
    var ids := [n.nutrientId];
    assert MemoriesOf(DropLast(ids), byId) == [] && Last(ids) == n.nutrientId;
    var found := if n.nutrientId in byId then byId[n.nutrientId].sourceMemoryIds else [];
    assert MemoriesOf(ids, byId) == [] + found == found;
    UniqueSortedExtensional(n.sourceMemoryIds + found, n.sourceMemoryIds);
  }

  lemma NewSignalReports(
      digest: Digest, t: SignalType, r: Record, n: Nutrient, byId: map<string, Nutrient>, now: string,
      confidenceScore: real,
      severity: real, humanReviewRequired: bool, aiContextEligible: bool)
    requires Traces(digest, r, n) && Agrees(byId, n)
             && (r.reviewRequired ==> humanReviewRequired && t != AiContextReady)
    ensures Reports(digest, NewSignal(digest, t, r, byId, now, confidenceScore, severity, humanReviewRequired,
                                      aiContextEligible), r, n)
  {
    UniqueSortedOne(n.nutrientId);
    LineageIsTheNutrients(digest, r, n, byId);
  }

  /** A synthesis identifier, whatever stands before it, tells the nutrient. */
  lemma SynthesisIdTellsNutrient(digest: Digest, a: string, r: Record, n: Nutrient, b: string, q: Record, k: Nutrient)
    requires SoundDigest(digest) && Traces(digest, r, n) && Traces(digest, q, k)
    requires a + r.synthesisId == b + q.synthesisId
    ensures NutrientKey(n) == NutrientKey(k)
  {
    var x, y := "synthesis-" + Lower(CategoryName(r.category)), "synthesis-" + Lower(CategoryName(q.category));
    var m, o := CategoryName(r.category) + "::", CategoryName(q.category) + "::";
    assert a + r.synthesisId == BuildId(digest, a + x, m + n.nutrientId);
    assert b + q.synthesisId == BuildId(digest, b + y, o + k.nutrientId);
    BuildIdInjective(digest, a + x, m + n.nutrientId, b + y, o + k.nutrientId);
    KeyTellsNutrient(digest, m, n, o, k);
  }

  lemma KeyParts(digest: Digest, s: Signal, r: Record, n: Nutrient)
    requires Reports(digest, s, r, n)
    ensures SignalKey(s) == SignalName(s.signalType) + "::" + r.synthesisId
    ensures SignalMaterial(s.signalType, r) == SignalName(s.signalType) + "::" + r.synthesisId + "::" + n.nutrientId
  {
    UniqueSortedOne(n.nutrientId);
    assert Join([r.synthesisId], "|") == r.synthesisId + JoinTail([], "|") == r.synthesisId;
    assert Join([n.nutrientId], "|") == n.nutrientId + JoinTail([], "|") == n.nutrientId;
  }

  ghost predicate Confusable(s: Signal, z: Signal) {
    SignalKey(s) == SignalKey(z) || s.signalId == z.signalId
  }

  /** Signals with one key or one identifier report one nutrient. */
  lemma SignalTellsNutrient(digest: Digest, s: Signal, r: Record, n: Nutrient, z: Signal, q: Record, k: Nutrient)
    requires SoundDigest(digest) && Reports(digest, s, r, n) && Reports(digest, z, q, k)
    requires Confusable(s, z)
    ensures NutrientKey(n) == NutrientKey(k)
  {
    KeyParts(digest, s, r, n);
    KeyParts(digest, z, q, k);
    var a, b := SignalName(s.signalType) + "::", SignalName(z.signalType) + "::";
    if SignalKey(s) == SignalKey(z) {
      SynthesisIdTellsNutrient(digest, a, r, n, b, q, k);
    } else {
      BuildIdInjective(digest, "signal", SignalMaterial(s.signalType, r), "signal", SignalMaterial(z.signalType, q));
      KeyTellsNutrient(digest, a + r.synthesisId + "::", n, b + q.synthesisId + "::", k);
    }
  }

  /** About one record they have one type. */
  lemma SignalTellsType(digest: Digest, s: Signal, z: Signal, r: Record, n: Nutrient)
    requires SoundDigest(digest) && Reports(digest, s, r, n) && Reports(digest, z, r, n)
    requires Confusable(s, z)
    ensures s.signalType == z.signalType
  {
    KeyParts(digest, s, r, n);
    KeyParts(digest, z, r, n);
    if s.signalId == z.signalId {
      BuildIdInjective(digest, "signal", SignalMaterial(s.signalType, r), "signal", SignalMaterial(z.signalType, r));
    }
    SameWord(SignalName(s.signalType), SignalName(z.signalType), r.synthesisId, n.nutrientId);
    SignalNameInjective(s.signalType, z.signalType);
  }

  lemma SameWord(x: string, y: string, synthesisId: string, nutrientId: string)
    requires x + "::" + synthesisId == y + "::" + synthesisId
             || x + "::" + synthesisId + "::" + nutrientId == y + "::" + synthesisId + "::" + nutrientId
    ensures x == y
  {
    if x + "::" + synthesisId == y + "::" + synthesisId {
      CancelSuffix(x + "::", y + "::", synthesisId);
    } else {
      CancelSuffix(x + "::" + synthesisId + "::", y + "::" + synthesisId + "::", nutrientId);
      CancelSuffix(x + "::" + synthesisId, y + "::" + synthesisId, "::");
      CancelSuffix(x + "::", y + "::", synthesisId);
    }
    CancelSuffix(x, y, "::");
  }

  ghost predicate AllReport(digest: Digest, signals: seq<Signal>, r: Record, n: Nutrient) {
    forall s :: s in signals ==> Reports(digest, s, r, n)
  }

  /** Review reaches every signal of a synthesis that asks for it. */
  lemma ReviewReachesSignals(c: Context, r: Record, s: Signal)
    requires s in SignalsOf(c, r) && r.reviewRequired
    ensures NeedsReview(s)
  {
    var types := SignalTypes(r, c.syntheses, c.byId, c.policy);
    SignalTypesDistinct(r, c.syntheses, c.byId, c.policy);
    FilterMembers(types, Confident(c, r));
    var kept, typed := Filter(types, Confident(c, r)), TypedSignals(c, r, types);
    assert s in typed;
    var i :| 0 <= i < |typed| && typed[i] == s;
    assert kept[i] in kept;
  }

  lemma SignalsOfReport(c: Context, r: Record, n: Nutrient)
    requires Traces(c.digest, r, n) && Agrees(c.byId, n)
    ensures AllReport(c.digest, SignalsOf(c, r), r, n)
  {
    forall s | s in SignalsOf(c, r) ensures Reports(c.digest, s, r, n) {
      if r.reviewRequired { ReviewReachesSignals(c, r, s); }
      NewSignalReports(c.digest, s.signalType, r, n, c.byId, s.createdAt, s.confidenceScore, s.severity,
                       s.humanReviewRequired,
                       s.aiContextEligible);
    }
  }

  ghost predicate DistinctTypes(signals: seq<Signal>) {
    forall i, j :: 0 <= i < j < |signals| ==> signals[i].signalType != signals[j].signalType
  }

  lemma TypedSignalTypes(c: Context, r: Record, types: seq<SignalType>)
    requires Distinct(types) && AiContextReady !in types
    ensures DistinctTypes(TypedSignals(c, r, types))
    ensures forall i :: 0 <= i < |TypedSignals(c, r, types)| ==>
            TypedSignals(c, r, types)[i].signalType != AiContextReady
  {
    var kept := Filter(types, Confident(c, r));
    FilterDistinct(types, Confident(c, r));
    FilterMembers(types, Confident(c, r));
    forall i | 0 <= i < |kept| ensures TypedSignals(c, r, types)[i].signalType == kept[i] && kept[i] != AiContextReady {
      assert kept[i] in kept;
    }
  }

  lemma SignalsOfTypes(c: Context, r: Record)
    ensures DistinctTypes(SignalsOf(c, r))
  {
    SignalTypesDistinct(r, c.syntheses, c.byId, c.policy);
    TypedSignalTypes(c, r, SignalTypes(r, c.syntheses, c.byId, c.policy));
  }

  /** Each signal reports a nutrient behind one of the records. */
  ghost predicate Origin(digest: Digest, s: Signal, records: seq<Record>, nutrients: seq<Nutrient>)
    requires |records| == |nutrients|
  {
    exists i :: 0 <= i < |records| && Reports(digest, s, records[i], nutrients[i])
  }

  ghost predicate AllOriginate(digest: Digest, signals: seq<Signal>, records: seq<Record>, nutrients: seq<Nutrient>)
    requires |records| == |nutrients|
  {
    forall s :: s in signals ==> Origin(digest, s, records, nutrients)
  }

  ghost predicate DistinctSignals(signals: seq<Signal>) {
    forall i, j :: 0 <= i < j < |signals| ==> !Confusable(signals[i], signals[j])
  }

  ghost predicate Sources(c: Context, records: seq<Record>, nutrients: seq<Nutrient>) {
    && |records| == |nutrients|
    && (forall i :: 0 <= i < |records| ==> Traces(c.digest, records[i], nutrients[i]) && Agrees(c.byId, nutrients[i]))
    && (forall i, j :: 0 <= i < j < |nutrients| ==> NutrientKey(nutrients[i]) != NutrientKey(nutrients[j]))
  }

  lemma {:induction false} RawSignalsAreDistinct(c: Context, records: seq<Record>, nutrients: seq<Nutrient>)
    requires SoundDigest(c.digest) && Sources(c, records, nutrients)
    ensures AllOriginate(c.digest, RawSignals(c, records), records, nutrients)
    ensures DistinctSignals(RawSignals(c, records))
  {
    if records != [] {
      var front, r, n := DropLast(records), Last(records), Last(nutrients);
      var before, added := RawSignals(c, front), SignalsOf(c, r);
      RawSignalsAreDistinct(c, front, DropLast(nutrients));
      SignalsOfReport(c, r, n);
      SignalsOfTypes(c, r);
      OriginsExtend(c.digest, before, added, records, nutrients);
      FreshSignalsDistinct(c.digest, added, r, n);
      OldAndNewDiffer(c.digest, before, front, DropLast(nutrients), added, r, n);
      DistinctConcat(before, added);
    }
  }

  lemma OldAndNewDiffer(
      digest: Digest, before: seq<Signal>, records: seq<Record>, nutrients: seq<Nutrient>, added: seq<Signal>,
      r: Record, n: Nutrient)
    requires SoundDigest(digest) && |records| == |nutrients|
    requires AllOriginate(digest, before, records, nutrients) && AllReport(digest, added, r, n)
    requires forall k :: k in nutrients ==> NutrientKey(k) != NutrientKey(n)
    ensures forall s, z :: s in before && z in added ==> !Confusable(s, z)
  {
    forall s, z | s in before && z in added && Confusable(s, z) ensures false {
      var i :| 0 <= i < |records| && Reports(digest, s, records[i], nutrients[i]);
      SignalTellsNutrient(digest, s, records[i], nutrients[i], z, r, n);
    }
  }

  lemma OriginAt(
      digest: Digest, s: Signal, records: seq<Record>, nutrients: seq<Nutrient>, i: nat, r: Record, n: Nutrient)
    requires |records| == |nutrients| && i < |records| && records[i] == r && nutrients[i] == n
             && Reports(digest, s, r, n)
    ensures Origin(digest, s, records, nutrients)
  {
    assert Reports(digest, s, records[i], nutrients[i]);
  }

  lemma OriginsExtend(
      digest: Digest, before: seq<Signal>, added: seq<Signal>, records: seq<Record>, nutrients: seq<Nutrient>)
    requires |records| == |nutrients| && records != []
    requires AllOriginate(digest, before, DropLast(records), DropLast(nutrients))
    requires AllReport(digest, added, Last(records), Last(nutrients))
    ensures AllOriginate(digest, before + added, records, nutrients)
  {
    var front, rest := DropLast(records), DropLast(nutrients);
    forall s | s in before + added ensures Origin(digest, s, records, nutrients) {
      if s in before {
        var i :| 0 <= i < |front| && Reports(digest, s, front[i], rest[i]);
        OriginAt(digest, s, records, nutrients, i, front[i], rest[i]);
      } else {
        OriginAt(digest, s, records, nutrients, |front|, Last(records), Last(nutrients));
      }
    }
  }

  lemma FreshSignalsDistinct(digest: Digest, added: seq<Signal>, r: Record, n: Nutrient)
    requires SoundDigest(digest) && AllReport(digest, added, r, n)
    requires DistinctTypes(added)
    ensures DistinctSignals(added)
  {
    forall i, j | 0 <= i < j < |added| ensures !Confusable(added[i], added[j]) {
      if Confusable(added[i], added[j]) {
        SignalTellsType(digest, added[i], added[j], r, n);
      }
    }
  }

  lemma DistinctConcat(a: seq<Signal>, b: seq<Signal>)
    requires DistinctSignals(a) && DistinctSignals(b)
    requires forall s, z :: s in a && z in b ==> !Confusable(s, z)
    ensures DistinctSignals(a + b)
  {
  }

  /** In the pipeline no two signals merge, and each reports exactly the lineage and audit flag of one nutrient. */
  lemma SignalsFollowNutrients(
      digest: Digest, records: seq<Record>, nutrients: seq<Nutrient>, known: seq<Nutrient>, now: string,
      policy: RuntimePolicy)
    requires SoundDigest(digest)
    requires Sources(Context(digest, records, IndexById(known), now, policy), records, nutrients)
    ensures var signals := Generate(digest, records, known, now, policy);
            && signals == RawSignals(Context(digest, records, IndexById(known), now, policy), records)
            && AllOriginate(digest, signals, records, nutrients) && DistinctSignals(signals)
  {
    var c := Context(digest, records, IndexById(known), now, policy);
    RawSignalsAreDistinct(c, records, nutrients);
    var raw := RawSignals(c, records);
    forall i, j | 0 <= i < j < |raw| ensures Map(raw, SignalKey)[i] != Map(raw, SignalKey)[j] {
      assert !Confusable(raw[i], raw[j]);
    }
    ConsolidateDistinct(raw, SignalKey, MergeSignals);
  }
}
