/** Extraction of nutrients from memories (protocol/memory/nutrient-engine.ts): group, compose, consolidate. */
module Nutrients {
  import opened Wrappers
  import opened Sequences
  import opened OrderedMaps
  import opened Text
  import opened Consolidation
  import opened Identifiers
  import opened Scores

  datatype NutrientType =
    | OperationalPattern | RecurringBlocker | DecisionTrail | StakeholderSignal | GovernanceLesson
    | RiskEvolution | ExecutionInsight | PolicyDependency | ContradictionCluster | StrategicSummaryCandidate

  datatype Memory = Memory(
    memoryId: string, kind: Option<string>, linkedMemoryIds: seq<string>, stakeholderIds: seq<string>,
    policyIds: seq<string>, decisionId: Option<string>, riskTopic: Option<string>, contradictionCount: real,
    blockerKey: Option<string>, executionKey: Option<string>, memoryWeight: real, auditRequired: bool,
    domain: Option<string>)

  datatype ExtractionPolicy = ExtractionPolicy(
    minEvidenceCount: real, promoteConfidenceThreshold: real, recurringBlockerMinCount: real,
    stakeholderSignalMinCount: real, decisionTrailMinCount: real, contradictionClusterMinContradictions: real,
    operationalPatternMinCount: real, operationalPatternMinWeightAverage: real, riskEvolutionMinCount: real,
    strategicCrossDomainMinCount: real, strategicCrossDomainMinDomains: real)

  datatype Nutrient = Nutrient(
    nutrientId: string, nutrientType: NutrientType, sourceMemoryIds: seq<string>, createdAt: string, updatedAt: string,
    confidenceScore: real, evidenceCount: nat, memoryWeightAverage: real, auditRequired: bool, promoted: bool)

  function TypeName(t: NutrientType): string {
    match t
    case OperationalPattern => "OPERATIONAL_PATTERN"
    case RecurringBlocker => "RECURRING_BLOCKER"
    case DecisionTrail => "DECISION_TRAIL"
    case StakeholderSignal => "STAKEHOLDER_SIGNAL"
    case GovernanceLesson => "GOVERNANCE_LESSON"
    case RiskEvolution => "RISK_EVOLUTION"
    case ExecutionInsight => "EXECUTION_INSIGHT"
    case PolicyDependency => "POLICY_DEPENDENCY"
    case ContradictionCluster => "CONTRADICTION_CLUSTER"
    case StrategicSummaryCandidate => "STRATEGIC_SUMMARY_CANDIDATE"
  }

  function TypeBoost(t: NutrientType): real {
    match t
    case OperationalPattern => 0.02
    case RecurringBlocker => 0.06
    case DecisionTrail => 0.05
    case StakeholderSignal => 0.04
    case GovernanceLesson => 0.04
    case RiskEvolution => 0.05
    case ExecutionInsight => 0.03
    case PolicyDependency => 0.05
    case ContradictionCluster => 0.02
    case StrategicSummaryCandidate => 0.08
  }

  function CalculateConfidence(
      t: NutrientType, evidenceCount: nat, memoryWeightAverage: real, crossDomainCount: nat): real {
    Round2(Min(1.0,
      Min(1.0, evidenceCount as real / 10.0) * 0.5 + Min(1.0, memoryWeightAverage / 100.0) * 0.35
      + Min(1.0, crossDomainCount as real / 5.0) * 0.15 + TypeBoost(t)))
  }

  predicate ShouldPromote(n: Nutrient, policy: ExtractionPolicy) {
    n.evidenceCount as real >= policy.minEvidenceCount && n.confidenceScore >= policy.promoteConfidenceThreshold
  }

  function MemoryIdOf(m: Memory): string { m.memoryId }

  function WeightOf(m: Memory): real { m.memoryWeight }

  function Ids(memories: seq<Memory>): seq<string> {
    Map(memories, MemoryIdOf)
  }

  function Material(t: NutrientType, sourceMemoryIds: seq<string>): string {
    TypeName(t) + "::" + Join(sourceMemoryIds, "|")
  }

  function BuildNutrientId(digest: Digest, t: NutrientType, sourceMemoryIds: seq<string>): string {
    BuildId(digest, "nutrient-" + Lower(TypeName(t)), Material(t, UniqueSorted(sourceMemoryIds)))
  }

  function Compose(digest: Digest, t: NutrientType, source: seq<Memory>, now: string, crossDomainCount: nat): Nutrient {
    var sourceMemoryIds := UniqueSorted(Ids(source));
    var memoryWeightAverage := Round2(Average(Map(source, WeightOf)));
    Nutrient(
      BuildNutrientId(digest, t, sourceMemoryIds), t, sourceMemoryIds, now, now,
      CalculateConfidence(t, |sourceMemoryIds|, memoryWeightAverage, crossDomainCount),
      |sourceMemoryIds|, memoryWeightAverage, exists m :: m in source && m.auditRequired, false)
  }

  // ---------------------------------------------------------------- consolidation

  function NutrientKey(n: Nutrient): string {
    Material(n.nutrientType, n.sourceMemoryIds)
  }

  function MergeNutrients(existing: Nutrient, n: Nutrient): Nutrient {
    existing.(updatedAt := if StrLt(existing.updatedAt, n.updatedAt) then n.updatedAt else existing.updatedAt,
              confidenceScore := Max(existing.confidenceScore, n.confidenceScore),
              auditRequired := existing.auditRequired || n.auditRequired,
              promoted := existing.promoted || n.promoted)
  }

  // ---------------------------------------------------------------- grouping

  type Groups = OrderedMap<string, seq<Memory>>

  function Add(groups: Groups, k: string, m: Memory): Groups {
    groups.Set(k, (if k in groups.vals then groups.vals[k] else []) + [m])
  }

  function AddAll(groups: Groups, keys: seq<string>, m: Memory): Groups {
    if keys == [] then groups else Add(AddAll(groups, DropLast(keys), m), Last(keys), m)
  }

  /** The groups of `memories` under the keys each memory names. */
  function Grouped(memories: seq<Memory>, keysOf: Memory -> seq<string>): Groups {
    if memories == [] then Empty()
       else AddAll(Grouped(DropLast(memories), keysOf), keysOf(Last(memories)), Last(memories))
  }

  /** An absent or empty string is no key. */
  function Truthy(o: Option<string>): seq<string> {
    if o.Some? && o.value != "" then [o.value] else []
  }

  function BlockerKeys(m: Memory): seq<string> { Truthy(m.blockerKey) }
  function StakeholderKeys(m: Memory): seq<string> { m.stakeholderIds }
  function DecisionKeys(m: Memory): seq<string> { Truthy(m.decisionId) }
  function PolicyKeys(m: Memory): seq<string> { m.policyIds }
  function RiskKeys(m: Memory): seq<string> { Truthy(m.riskTopic) }
  function OperationKeys(m: Memory): seq<string> { Truthy(if m.executionKey.Some? then m.executionKey else m.kind) }

  ghost predicate Partitioned(groups: Groups, memories: seq<Memory>, keysOf: Memory -> seq<string>) {
    && groups.Valid()
    && (forall k, m :: k in groups.vals && m in groups.vals[k] ==> m in memories && k in keysOf(m))
    && (forall k, m :: m in memories && k in keysOf(m) ==> k in groups.vals && m in groups.vals[k])
    && (forall k :: k in groups.vals ==> groups.vals[k] != [])
  }

  lemma {:induction false} AddAllMembers(groups: Groups, keys: seq<string>, m: Memory)
    requires groups.Valid()
    ensures var r := AddAll(groups, keys, m);
            && r.Valid()
            && (forall k :: k in r.vals <==> k in groups.vals || k in keys)
            && ((forall k :: k in groups.vals ==> groups.vals[k] != []) ==> forall k :: k in r.vals ==> r.vals[k] != [])
            && (forall k, x :: k in r.vals ==>
                  (x in r.vals[k] <==> (k in groups.vals && x in groups.vals[k]) || (x == m && k in keys)))
  {
    if keys != [] {
      AddAllMembers(groups, DropLast(keys), m);
      AddAll(groups, DropLast(keys), m).SetValid(Last(keys), []);
      assert keys == DropLast(keys) + [Last(keys)];
    }
  }

  /** A memory is in a group exactly when it names the group's key. */
  lemma {:induction false} GroupedPartitions(memories: seq<Memory>, keysOf: Memory -> seq<string>)
    ensures Partitioned(Grouped(memories, keysOf), memories, keysOf)
  {
    if memories != [] {
      var front, m := DropLast(memories), Last(memories);
      GroupedPartitions(front, keysOf);
      AddAllMembers(Grouped(front, keysOf), keysOf(m), m);
      assert memories == front + [m];
    }
  }

  method AddUnderKeys(groups: Groups, keys: seq<string>, m: Memory) returns (r: Groups)
    ensures r == AddAll(groups, keys, m)
  {
    r := groups;
    for j := 0 to |keys|
      invariant r == AddAll(groups, keys[..j], m)
    {
      assert DropLast(keys[..j + 1]) == keys[..j];
      r := r.Set(keys[j], (if keys[j] in r.vals then r.vals[keys[j]] else []) + [m]);
    }
    assert keys[..|keys|] == keys;
  }

  lemma GroupedStep(memories: seq<Memory>, i: nat, keysOf: Memory -> seq<string>)
    requires i < |memories|
    ensures Grouped(memories[..i + 1], keysOf)
            == AddAll(Grouped(memories[..i], keysOf), keysOf(memories[i]), memories[i])
  {
    assert DropLast(memories[..i + 1]) == memories[..i];
  }

  /** The grouping loop fills all six maps in one pass over the memories. */
  method GroupMemories(memories: seq<Memory>)
    returns (byBlocker: Groups, byStakeholder: Groups, byDecision: Groups, byPolicy: Groups, byRiskTopic: Groups,
             byOperation: Groups)
    ensures byBlocker == Grouped(memories, BlockerKeys) && byStakeholder == Grouped(memories, StakeholderKeys)
    ensures byDecision == Grouped(memories, DecisionKeys) && byPolicy == Grouped(memories, PolicyKeys)
    ensures byRiskTopic == Grouped(memories, RiskKeys) && byOperation == Grouped(memories, OperationKeys)
  {
    byBlocker, byStakeholder, byDecision := Empty(), Empty(), Empty();
    byPolicy, byRiskTopic, byOperation := Empty(), Empty(), Empty();
    for i := 0 to |memories|
      invariant byBlocker == Grouped(memories[..i], BlockerKeys)
                && byStakeholder == Grouped(memories[..i], StakeholderKeys)
      invariant byDecision == Grouped(memories[..i], DecisionKeys) && byPolicy == Grouped(memories[..i], PolicyKeys)
      invariant byRiskTopic == Grouped(memories[..i], RiskKeys) && byOperation == Grouped(memories[..i], OperationKeys)
    {
      var m := memories[i];
      GroupedStep(memories, i, BlockerKeys);
      GroupedStep(memories, i, StakeholderKeys);
      GroupedStep(memories, i, DecisionKeys);
      GroupedStep(memories, i, PolicyKeys);
      GroupedStep(memories, i, RiskKeys);
      GroupedStep(memories, i, OperationKeys);
      byBlocker := AddUnderKeys(byBlocker, BlockerKeys(m), m);
      byStakeholder := AddUnderKeys(byStakeholder, StakeholderKeys(m), m);
      byDecision := AddUnderKeys(byDecision, DecisionKeys(m), m);
      byPolicy := AddUnderKeys(byPolicy, PolicyKeys(m), m);
      byRiskTopic := AddUnderKeys(byRiskTopic, RiskKeys(m), m);
      byOperation := AddUnderKeys(byOperation, OperationKeys(m), m);
    }
    assert memories[..|memories|] == memories;
  }

  // ---------------------------------------------------------------- candidates

  type Keep = seq<Memory> -> bool

  function FromGroups(
      digest: Digest, groups: seq<seq<Memory>>, t: NutrientType, now: string, keep: Keep): seq<Nutrient> {
    Map(Filter(groups, keep), g => Compose(digest, t, g, now, 1))
  }

  function AtLeast(count: real): Keep {
    (g: seq<Memory>) => |g| as real >= count
  }

  function IsDecisionTrail(policy: ExtractionPolicy): Keep {
    (g: seq<Memory>) => |g| as real >= policy.decisionTrailMinCount || exists m :: m in g && |m.linkedMemoryIds| > 0
  }

  function IsOperationalPattern(policy: ExtractionPolicy): Keep {
    (g: seq<Memory>) => |g| as real >= policy.operationalPatternMinCount
                        && Average(Map(g, WeightOf)) >= policy.operationalPatternMinWeightAverage
  }

  function Always(): Keep {
    (g: seq<Memory>) => true
  }

  function ContradictionSource(memories: seq<Memory>, policy: ExtractionPolicy): seq<Memory> {
    Filter(memories, (m: Memory) => m.contradictionCount >= policy.contradictionClusterMinContradictions)
  }

  function HighWeight(memories: seq<Memory>): seq<Memory> {
    Filter(memories, (m: Memory) => m.memoryWeight >= 65.0)
  }

  function DomainCount(memories: seq<Memory>): nat {
    |Dedupe(Map(memories, (m: Memory) => m.domain.GetOr("unknown")))|
  }

  function ContradictionNutrients(
      digest: Digest, memories: seq<Memory>, now: string, policy: ExtractionPolicy): seq<Nutrient> {
    var source := ContradictionSource(memories, policy);
    if |source| > 0 then [Compose(digest, ContradictionCluster, source, now, 1)] else []
  }

  function StrategicNutrients(
      digest: Digest, memories: seq<Memory>, now: string, policy: ExtractionPolicy): seq<Nutrient> {
    var source := HighWeight(memories);
    if |source| as real >= policy.strategicCrossDomainMinCount
       && DomainCount(source) as real >= policy.strategicCrossDomainMinDomains
    then [Compose(digest, StrategicSummaryCandidate, source, now, DomainCount(source))] else []
  }

  function GroupNutrients(
      digest: Digest, memories: seq<Memory>, keysOf: Memory -> seq<string>, t: NutrientType, now: string,
      keep: Keep): seq<Nutrient> {
    GroupedPartitions(memories, keysOf);
    FromGroups(digest, Grouped(memories, keysOf).Values(), t, now, keep)
  }

  /** Nutrients about what memories name: blockers, stakeholders, decisions and policies. */
  function NamedCandidates(
      digest: Digest, memories: seq<Memory>, now: string, policy: ExtractionPolicy): seq<Nutrient> {
    [] + GroupNutrients(digest, memories, BlockerKeys, RecurringBlocker, now, AtLeast(policy.recurringBlockerMinCount))
    + GroupNutrients(digest, memories, StakeholderKeys, StakeholderSignal, now,
                     AtLeast(policy.stakeholderSignalMinCount))
    + GroupNutrients(digest, memories, DecisionKeys, DecisionTrail, now, IsDecisionTrail(policy))
    + GroupNutrients(digest, memories, PolicyKeys, PolicyDependency, now, Always())
  }

  /** Nutrients about patterns: contradictions, operations, risks and cross-domain weight. */
  function PatternCandidates(
      digest: Digest, memories: seq<Memory>, now: string, policy: ExtractionPolicy): seq<Nutrient> {
    ContradictionNutrients(digest, memories, now, policy)
    + GroupNutrients(digest, memories, OperationKeys, OperationalPattern, now, IsOperationalPattern(policy))
    + GroupNutrients(digest, memories, RiskKeys, RiskEvolution, now, AtLeast(policy.riskEvolutionMinCount))
    + StrategicNutrients(digest, memories, now, policy)
  }

  /** The nutrients in the order they are pushed. */
  function Candidates(digest: Digest, memories: seq<Memory>, now: string, policy: ExtractionPolicy): seq<Nutrient> {
    NamedCandidates(digest, memories, now, policy) + PatternCandidates(digest, memories, now, policy)
  }

  function Promote(n: Nutrient, policy: ExtractionPolicy): Nutrient {
    n.(promoted := ShouldPromote(n, policy))
  }

  function Finished(candidates: seq<Nutrient>, policy: ExtractionPolicy): seq<Nutrient> {
    Map(Consolidated(candidates, NutrientKey, MergeNutrients), n => Promote(n, policy))
  }

  function Extract(digest: Digest, memories: seq<Memory>, now: string, policy: ExtractionPolicy): seq<Nutrient> {
    Finished(Candidates(digest, memories, now, policy), policy)
  }

  lemma FromGroupsAppend(
      digest: Digest, groups: seq<seq<Memory>>, g: seq<Memory>, t: NutrientType, now: string, keep: Keep)
    ensures FromGroups(digest, groups + [g], t, now, keep) ==
            FromGroups(digest, groups, t, now, keep) + if keep(g) then [Compose(digest, t, g, now, 1)] else []
  {
    FilterAppend(groups, g, keep);
  }

  method ComposeGroups(digest: Digest, groups: Groups, t: NutrientType, now: string, keep: Keep)
    returns (r: seq<Nutrient>)
    requires groups.Valid()
    ensures r == FromGroups(digest, groups.Values(), t, now, keep)
  {
    r := [];
    var sources := groups.Values();
    for i := 0 to |sources|
      invariant r == FromGroups(digest, sources[..i], t, now, keep)
    {
      FromGroupsAppend(digest, sources[..i], sources[i], t, now, keep);
      assert sources[..i + 1] == sources[..i] + [sources[i]];
      if keep(sources[i]) {
        r := r + [Compose(digest, t, sources[i], now, 1)];
      }
    }
    assert sources[..|sources|] == sources;
  }

  /** Pushing the nutrients of one grouping. */
  method PushGroups(
      digest: Digest, pushed: seq<Nutrient>, groups: Groups, ghost memories: seq<Memory>,
      ghost keysOf: Memory -> seq<string>,
      t: NutrientType, now: string, keep: Keep)
    returns (r: seq<Nutrient>)
    requires groups == Grouped(memories, keysOf)
    ensures r == pushed + GroupNutrients(digest, memories, keysOf, t, now, keep)
  {
    GroupedPartitions(memories, keysOf);
    var more := ComposeGroups(digest, groups, t, now, keep);
    r := pushed + more;
  }

  method ExtractMemoryNutrients(digest: Digest, memories: seq<Memory>, now: string, policy: ExtractionPolicy)
    returns (nutrients: seq<Nutrient>, promotedNutrients: seq<Nutrient>)
    ensures nutrients == Extract(digest, memories, now, policy)
    ensures promotedNutrients == Filter(nutrients, (n: Nutrient) => n.promoted)
  {
    var byBlocker, byStakeholder, byDecision, byPolicy, byRiskTopic, byOperation := GroupMemories(memories);
    var named := PushNamed(digest, memories, byBlocker, byStakeholder, byDecision, byPolicy, now, policy);
    var pushed := PushPatterns(digest, named, memories, byOperation, byRiskTopic, now, policy);
    var consolidated := ConsolidateDuplicates(pushed, NutrientKey, MergeNutrients);
    nutrients := Map(consolidated, n => Promote(n, policy));
    promotedNutrients := Filter(nutrients, (n: Nutrient) => n.promoted);
  }

  method PushNamed(
      digest: Digest, memories: seq<Memory>, byBlocker: Groups, byStakeholder: Groups, byDecision: Groups,
      byPolicy: Groups,
      now: string, policy: ExtractionPolicy)
    returns (pushed: seq<Nutrient>)
    requires byBlocker == Grouped(memories, BlockerKeys) && byStakeholder == Grouped(memories, StakeholderKeys)
    requires byDecision == Grouped(memories, DecisionKeys) && byPolicy == Grouped(memories, PolicyKeys)
    ensures pushed == NamedCandidates(digest, memories, now, policy)
  {
    pushed := PushGroups(digest, [], byBlocker, memories, BlockerKeys, RecurringBlocker, now,
                         AtLeast(policy.recurringBlockerMinCount));
    pushed := PushGroups(digest, pushed, byStakeholder, memories, StakeholderKeys, StakeholderSignal, now,
                         AtLeast(policy.stakeholderSignalMinCount));
    pushed := PushGroups(digest, pushed, byDecision, memories, DecisionKeys, DecisionTrail, now,
                         IsDecisionTrail(policy));
    pushed := PushGroups(digest, pushed, byPolicy, memories, PolicyKeys, PolicyDependency, now, Always());
  }

  method PushPatterns(
      digest: Digest, named: seq<Nutrient>, memories: seq<Memory>, byOperation: Groups, byRiskTopic: Groups,
      now: string, policy: ExtractionPolicy)
    returns (pushed: seq<Nutrient>)
    requires byOperation == Grouped(memories, OperationKeys) && byRiskTopic == Grouped(memories, RiskKeys)
    ensures pushed == named + PatternCandidates(digest, memories, now, policy)
  {
    var patterns := ContradictionNutrients(digest, memories, now, policy);
    patterns := PushGroups(digest, patterns, byOperation, memories, OperationKeys, OperationalPattern, now,
                           IsOperationalPattern(policy));
    patterns := PushGroups(digest, patterns, byRiskTopic, memories, RiskKeys, RiskEvolution, now,
                           AtLeast(policy.riskEvolutionMinCount));
    pushed := named + (patterns + StrategicNutrients(digest, memories, now, policy));
  }

  // ---------------------------------------------------------------- lineage and audit

  ghost predicate DistinctIds(memories: seq<Memory>) {
    forall x, y :: x in memories && y in memories && x.memoryId == y.memoryId ==> x == y
  }

  /** Lineage names input memories only, and an audit-required memory in the lineage sets the audit flag. */
  ghost predicate Faithful(memories: seq<Memory>, lineage: seq<string>, audit: bool) {
    && (forall id :: id in lineage ==> exists m :: m in memories && m.memoryId == id)
    && (forall m :: m in memories && m.memoryId in lineage && m.auditRequired ==> audit)
  }

  ghost predicate Identified(digest: Digest, n: Nutrient) {
    n.nutrientId == BuildId(digest, "nutrient-" + Lower(TypeName(n.nutrientType)), NutrientKey(n))
  }

  /** A nutrient as extraction makes it: faithful, lineage sorted without repetition, identified by its key. */
  ghost predicate WellMade(digest: Digest, memories: seq<Memory>, n: Nutrient) {
    && Faithful(memories, n.sourceMemoryIds, n.auditRequired)
    && UniqueSorted(n.sourceMemoryIds) == n.sourceMemoryIds
    && n.evidenceCount == |n.sourceMemoryIds|
    && Identified(digest, n)
  }

  lemma IdsMembers(memories: seq<Memory>)
    ensures forall id :: id in Ids(memories) <==> exists m :: m in memories && m.memoryId == id
  {
    forall id ensures id in Ids(memories) <==> exists m :: m in memories && m.memoryId == id {
      if id in Ids(memories) {
        var i :| 0 <= i < |memories| && Ids(memories)[i] == id;
        assert memories[i] in memories;
      }
      if m :| m in memories && m.memoryId == id {
        var i :| 0 <= i < |memories| && memories[i] == m;
        assert Ids(memories)[i] == id;
      }
    }
  }

  lemma ComposeWellMade(
      digest: Digest, memories: seq<Memory>, t: NutrientType, source: seq<Memory>, now: string, crossDomainCount: nat)
    requires DistinctIds(memories)
    requires forall m :: m in source ==> m in memories
    ensures WellMade(digest, memories, Compose(digest, t, source, now, crossDomainCount))
  {
    UniqueSortedProperties(Ids(source));
    UniqueSortedIdempotent(Ids(source));
    IdsMembers(source);
  }

  ghost predicate AllWellMade(digest: Digest, memories: seq<Memory>, nutrients: seq<Nutrient>) {
    forall n :: n in nutrients ==> WellMade(digest, memories, n)
  }

  /** A nutrient composed from some of the memories; only the strategic one may be composed from none. */
  ghost predicate Composed(digest: Digest, memories: seq<Memory>, now: string, n: Nutrient) {
    exists t: NutrientType, source: seq<Memory>, crossDomainCount: nat ::
      && (forall m :: m in source ==> m in memories) && (source == [] ==> t == StrategicSummaryCandidate)
      && n == Compose(digest, t, source, now, crossDomainCount)
  }

  ghost predicate AllComposed(digest: Digest, memories: seq<Memory>, now: string, nutrients: seq<Nutrient>) {
    forall n :: n in nutrients ==> Composed(digest, memories, now, n)
  }

  lemma ComposeIsComposed(
      digest: Digest, memories: seq<Memory>, t: NutrientType, source: seq<Memory>, now: string, crossDomainCount: nat)
    requires forall m :: m in source ==> m in memories
    requires source == [] ==> t == StrategicSummaryCandidate
    ensures Composed(digest, memories, now, Compose(digest, t, source, now, crossDomainCount))
  {
  }

  lemma GroupsHoldMemories(memories: seq<Memory>, keysOf: Memory -> seq<string>, source: seq<Memory>)
    requires Grouped(memories, keysOf).Valid() && source in Grouped(memories, keysOf).Values()
    ensures source != [] && forall m :: m in source ==> m in memories
  {
    GroupedPartitions(memories, keysOf);
    Grouped(memories, keysOf).ValuesMembers(source);
  }

  lemma GroupNutrientsComposed(
      digest: Digest, memories: seq<Memory>, keysOf: Memory -> seq<string>, t: NutrientType, now: string, keep: Keep)
    ensures AllComposed(digest, memories, now, GroupNutrients(digest, memories, keysOf, t, now, keep))
  {
    GroupedPartitions(memories, keysOf);
    var sources := Grouped(memories, keysOf).Values();
    var kept := Filter(sources, keep);
    FilterMembers(sources, keep);
    forall i | 0 <= i < |kept| ensures Composed(digest, memories, now, Compose(digest, t, kept[i], now, 1)) {
      assert kept[i] in kept;
      GroupsHoldMemories(memories, keysOf, kept[i]);
      ComposeIsComposed(digest, memories, t, kept[i], now, 1);
    }
  }

  lemma NamedComposed(digest: Digest, memories: seq<Memory>, now: string, policy: ExtractionPolicy)
    ensures AllComposed(digest, memories, now, NamedCandidates(digest, memories, now, policy))
  {
    GroupNutrientsComposed(digest, memories, BlockerKeys, RecurringBlocker, now,
                           AtLeast(policy.recurringBlockerMinCount));
    GroupNutrientsComposed(digest, memories, StakeholderKeys, StakeholderSignal, now,
                           AtLeast(policy.stakeholderSignalMinCount));
    GroupNutrientsComposed(digest, memories, DecisionKeys, DecisionTrail, now, IsDecisionTrail(policy));
    GroupNutrientsComposed(digest, memories, PolicyKeys, PolicyDependency, now, Always());
  }

  lemma PatternsComposed(digest: Digest, memories: seq<Memory>, now: string, policy: ExtractionPolicy)
    ensures AllComposed(digest, memories, now, PatternCandidates(digest, memories, now, policy))
  {
    GroupNutrientsComposed(digest, memories, OperationKeys, OperationalPattern, now, IsOperationalPattern(policy));
    GroupNutrientsComposed(digest, memories, RiskKeys, RiskEvolution, now, AtLeast(policy.riskEvolutionMinCount));
    SingleSourceComposed(digest, memories, now, policy);
  }

  lemma SingleSourceComposed(digest: Digest, memories: seq<Memory>, now: string, policy: ExtractionPolicy)
    ensures AllComposed(digest, memories, now, ContradictionNutrients(digest, memories, now, policy))
    ensures AllComposed(digest, memories, now, StrategicNutrients(digest, memories, now, policy))
  {
    FilterMembers(memories, (m: Memory) => m.contradictionCount >= policy.contradictionClusterMinContradictions);
    if ContradictionSource(memories, policy) != [] {
      ComposeIsComposed(digest, memories, ContradictionCluster, ContradictionSource(memories, policy), now, 1);
    }
    FilterMembers(memories, (m: Memory) => m.memoryWeight >= 65.0);
    ComposeIsComposed(digest, memories, StrategicSummaryCandidate, HighWeight(memories), now,
                      DomainCount(HighWeight(memories)));
  }

  /** Every nutrient that is pushed is composed from input memories. */
  lemma CandidatesComposed(digest: Digest, memories: seq<Memory>, now: string, policy: ExtractionPolicy)
    ensures AllComposed(digest, memories, now, Candidates(digest, memories, now, policy))
  {
    NamedComposed(digest, memories, now, policy);
    PatternsComposed(digest, memories, now, policy);
  }

  lemma ComposedAreWellMade(digest: Digest, memories: seq<Memory>, now: string, nutrients: seq<Nutrient>)
    requires DistinctIds(memories) && AllComposed(digest, memories, now, nutrients)
    ensures AllWellMade(digest, memories, nutrients)
  {
    forall n | n in nutrients ensures WellMade(digest, memories, n) {
      var t: NutrientType, source: seq<Memory>, crossDomainCount: nat :|
        (forall m :: m in source ==> m in memories) && n == Compose(digest, t, source, now, crossDomainCount);
      ComposeWellMade(digest, memories, t, source, now, crossDomainCount);
    }
  }

  /** No two nutrients share a key or an identifier. */
  ghost predicate DistinctNutrients(nutrients: seq<Nutrient>) {
    forall n, k :: n in nutrients && k in nutrients ==>
      (NutrientKey(n) == NutrientKey(k) || n.nutrientId == k.nutrientId) ==> n == k
  }

  lemma FinishedWellMade(digest: Digest, memories: seq<Memory>, candidates: seq<Nutrient>, policy: ExtractionPolicy)
    requires AllWellMade(digest, memories, candidates)
    ensures AllWellMade(digest, memories, Finished(candidates, policy))
  {
    ConsolidateInvariant(candidates, NutrientKey, MergeNutrients, n => WellMade(digest, memories, n));
    var merged, r := Consolidated(candidates, NutrientKey, MergeNutrients), Finished(candidates, policy);
    forall i | 0 <= i < |r| ensures WellMade(digest, memories, r[i]) {
      assert merged[i] in merged;
      assert r[i] == Promote(merged[i], policy);
    }
  }

  lemma FinishedKeys(candidates: seq<Nutrient>, policy: ExtractionPolicy)
    ensures Distinct(Map(Finished(candidates, policy), NutrientKey))
  {
    var merged, r := Consolidated(candidates, NutrientKey, MergeNutrients), Finished(candidates, policy);
    ConsolidatedKeys(candidates, NutrientKey, MergeNutrients);
    forall i | 0 <= i < |r| ensures Map(r, NutrientKey)[i] == Map(merged, NutrientKey)[i] {
      assert r[i] == Promote(merged[i], policy);
    }
  }

  /** Nutrients with one identifier have one key. */
  lemma IdTellsKey(digest: Digest, n: Nutrient, k: Nutrient)
    requires SoundDigest(digest) && Identified(digest, n) && Identified(digest, k)
    requires n.nutrientId == k.nutrientId
    ensures NutrientKey(n) == NutrientKey(k)
  {
    BuildIdInjective(digest, "nutrient-" + Lower(TypeName(n.nutrientType)), NutrientKey(n),
                     "nutrient-" + Lower(TypeName(k.nutrientType)), NutrientKey(k));
  }

  lemma DistinctKeysMeanDistinctNutrients(digest: Digest, r: seq<Nutrient>)
    requires SoundDigest(digest) && Distinct(Map(r, NutrientKey))
    requires forall n :: n in r ==> Identified(digest, n)
    ensures DistinctNutrients(r) && Distinct(r)
  {
    forall i, j | 0 <= i < j < |r| ensures NutrientKey(r[i]) != NutrientKey(r[j]) {
      assert Map(r, NutrientKey)[i] != Map(r, NutrientKey)[j];
    }
    forall n, k | n in r && k in r && (NutrientKey(n) == NutrientKey(k) || n.nutrientId == k.nutrientId)
      ensures n == k {
      if n.nutrientId == k.nutrientId {
        IdTellsKey(digest, n, k);
      }
    }
  }

  /** Extraction keeps lineage and audit flags through grouping and merging, and no two nutrients share an
      identifier. */
  lemma ExtractIsFaithful(digest: Digest, memories: seq<Memory>, now: string, policy: ExtractionPolicy)
    requires DistinctIds(memories) && SoundDigest(digest)
    ensures AllWellMade(digest, memories, Extract(digest, memories, now, policy))
    ensures DistinctNutrients(Extract(digest, memories, now, policy))
            && Distinct(Extract(digest, memories, now, policy))
  {
    var candidates := Candidates(digest, memories, now, policy);
    CandidatesComposed(digest, memories, now, policy);
    ComposedAreWellMade(digest, memories, now, candidates);
    FinishedWellMade(digest, memories, candidates, policy);
    FinishedKeys(candidates, policy);
    DistinctKeysMeanDistinctNutrients(digest, Extract(digest, memories, now, policy));
  }

  /** Merging loses no lineage: for each candidate some nutrient has its type and joined lineage, and its audit flag if
      set. */
  lemma MergingKeepsCandidates(candidates: seq<Nutrient>, policy: ExtractionPolicy, c: Nutrient)
    requires c in candidates
    ensures exists n :: && n in Finished(candidates, policy) && NutrientKey(n) == NutrientKey(c)
                        && (c.auditRequired ==> n.auditRequired)
  {
    var i := MergedWith(candidates, NutrientKey, MergeNutrients, c);
    var n := Finished(candidates, policy)[i];
    assert n == Promote(Consolidated(candidates, NutrientKey, MergeNutrients)[i], policy);
    FoldAudit(Group(candidates, NutrientKey, NutrientKey(c)));
  }

  /** A merged nutrient is audit-required exactly when one of the merged ones is. */
  lemma {:induction false} FoldAudit(group: seq<Nutrient>)
    requires group != []
    ensures Fold(group, MergeNutrients).auditRequired <==> exists n :: n in group && n.auditRequired
    ensures Fold(group, MergeNutrients).sourceMemoryIds == group[0].sourceMemoryIds
    ensures Fold(group, MergeNutrients).nutrientType == group[0].nutrientType
  {
    if |group| > 1 {
      FoldAudit(DropLast(group));
      assert group == DropLast(group) + [Last(group)];
    } else {
      assert group[0] in group;
    }
  }
}
