/** When the audit flag of a nutrient is exact (protocol/memory/nutrient-engine.ts): consolidation keys join memory
    identifiers with bars, and different lineages with one key lend each other the flag. */
module AuditExactness {
  import opened Wrappers
  import opened Sequences
  import opened OrderedMaps
  import opened Text
  import opened Consolidation
  import opened Identifiers
  import opened Nutrients

  ghost predicate Behind(memories: seq<Memory>, lineage: seq<string>) {
    exists m :: m in memories && m.memoryId in lineage && m.auditRequired
  }

  /** The flag is set just when an audit-required memory is in the lineage. */
  ghost predicate Exact(memories: seq<Memory>, n: Nutrient) {
    n.auditRequired <==> Behind(memories, n.sourceMemoryIds)
  }

  ghost predicate Over(memories: seq<Memory>, ids: iset<string>) {
    forall m :: m in memories ==> m.memoryId in ids
  }

  ghost predicate AlwaysExact(digest: Digest, ids: iset<string>) {
    forall memories, now, policy, n ::
      DistinctIds(memories) && Over(memories, ids) && n in Extract(digest, memories, now, policy) ==> Exact(memories, n)
  }

  /** A lineage as nutrients carry it, not empty, over some identifiers. */
  ghost predicate IsLineage(lineage: seq<string>, ids: iset<string>) {
    lineage != [] && UniqueSorted(lineage) == lineage && forall id :: id in lineage ==> id in ids
  }

  /** Joining with bars tells lineages over these identifiers apart. */
  ghost predicate Separable(ids: iset<string>) {
    forall a, b :: IsLineage(a, ids) && IsLineage(b, ids) && Join(a, "|") == Join(b, "|") ==> a == b
  }

  // ---------------------------------------------------------------- keys

  lemma NameOfNamedTypes(t: NutrientType)
    requires t.RecurringBlocker? || t.StakeholderSignal? || t.DecisionTrail? || t.PolicyDependency?
    ensures ':' !in TypeName(t) && |TypeName(t)| < 27
  {
  }

  lemma NameOfPatternTypes(t: NutrientType)
    requires t.ContradictionCluster? || t.OperationalPattern? || t.RiskEvolution?
    ensures ':' !in TypeName(t) && |TypeName(t)| < 27
  {
  }

  lemma NameOfOtherTypes(t: NutrientType)
    requires t.StrategicSummaryCandidate? || t.GovernanceLesson? || t.ExecutionInsight?
    ensures ':' !in TypeName(t) && (|TypeName(t)| < 27 <==> !t.StrategicSummaryCandidate?)
  {
  }

  lemma TypeNameFacts(t: NutrientType)
    ensures ':' !in TypeName(t) && (|TypeName(t)| < 27 <==> !t.StrategicSummaryCandidate?)
  {
    if t.RecurringBlocker? || t.StakeholderSignal? || t.DecisionTrail? || t.PolicyDependency? {
      NameOfNamedTypes(t);
    } else if t.ContradictionCluster? || t.OperationalPattern? || t.RiskEvolution? {
      NameOfPatternTypes(t);
    } else {
      NameOfOtherTypes(t);
    }
  }

  lemma TaggedInjective(a: string, x: string, b: string, y: string)
    requires ':' !in a && ':' !in b && a + "::" + x == b + "::" + y
    ensures a == b && x == y
  {
    assert a + "::" + x == a + [':'] + (":" + x) && b + "::" + y == b + [':'] + (":" + y);
    SplitAtFirst(a, ":" + x, b, ":" + y, ':');
    assert (":" + x)[1..] == x && (":" + y)[1..] == y;
  }

  /** Equal keys mean equal joined lineages, and a strategic nutrient has its key from strategic ones only. */
  lemma EqualKeys(n: Nutrient, k: Nutrient)
    requires NutrientKey(n) == NutrientKey(k)
    ensures Join(n.sourceMemoryIds, "|") == Join(k.sourceMemoryIds, "|")
    ensures n.nutrientType.StrategicSummaryCandidate? <==> k.nutrientType.StrategicSummaryCandidate?
  {
    TypeNameFacts(n.nutrientType);
    TypeNameFacts(k.nutrientType);
    TaggedInjective(TypeName(n.nutrientType), Join(n.sourceMemoryIds, "|"), TypeName(k.nutrientType),
                    Join(k.sourceMemoryIds, "|"));
  }

  // ---------------------------------------------------------------- separable identifiers give exact flags

  lemma GroupNutrientsTyped(
      digest: Digest, memories: seq<Memory>, keysOf: Memory -> seq<string>, t: NutrientType, now: string, keep: Keep,
      n: Nutrient)
    requires n in GroupNutrients(digest, memories, keysOf, t, now, keep)
    ensures n.nutrientType == t
  {
    GroupedPartitions(memories, keysOf);
  }

  lemma NamedAreNotStrategic(digest: Digest, memories: seq<Memory>, now: string, policy: ExtractionPolicy, n: Nutrient)
    requires n in NamedCandidates(digest, memories, now, policy)
    ensures n.nutrientType != StrategicSummaryCandidate
  {
    if n in GroupNutrients(digest, memories, BlockerKeys, RecurringBlocker, now,
                           AtLeast(policy.recurringBlockerMinCount)) {
      GroupNutrientsTyped(digest, memories, BlockerKeys, RecurringBlocker, now,
                          AtLeast(policy.recurringBlockerMinCount), n);
    } else if n in GroupNutrients(digest, memories, StakeholderKeys, StakeholderSignal, now,
                                  AtLeast(policy.stakeholderSignalMinCount)) {
      GroupNutrientsTyped(digest, memories, StakeholderKeys, StakeholderSignal, now,
                          AtLeast(policy.stakeholderSignalMinCount), n);
    } else if n in GroupNutrients(digest, memories, DecisionKeys, DecisionTrail, now, IsDecisionTrail(policy)) {
      GroupNutrientsTyped(digest, memories, DecisionKeys, DecisionTrail, now, IsDecisionTrail(policy), n);
    } else {
      GroupNutrientsTyped(digest, memories, PolicyKeys, PolicyDependency, now, Always(), n);
    }
  }

  lemma PatternIsStrategic(digest: Digest, memories: seq<Memory>, now: string, policy: ExtractionPolicy, n: Nutrient)
    requires n in PatternCandidates(digest, memories, now, policy) && n.nutrientType == StrategicSummaryCandidate
    ensures n in StrategicNutrients(digest, memories, now, policy)
  {
    if n in GroupNutrients(digest, memories, OperationKeys, OperationalPattern, now, IsOperationalPattern(policy)) {
      GroupNutrientsTyped(digest, memories, OperationKeys, OperationalPattern, now, IsOperationalPattern(policy), n);
    }
    if n in GroupNutrients(digest, memories, RiskKeys, RiskEvolution, now, AtLeast(policy.riskEvolutionMinCount)) {
      GroupNutrientsTyped(digest, memories, RiskKeys, RiskEvolution, now, AtLeast(policy.riskEvolutionMinCount), n);
    }
  }

  /** There is at most one strategic candidate. */
  lemma OneStrategicCandidate(digest: Digest, memories: seq<Memory>, now: string, policy: ExtractionPolicy, n: Nutrient)
    requires n in Candidates(digest, memories, now, policy) && n.nutrientType == StrategicSummaryCandidate
    ensures StrategicNutrients(digest, memories, now, policy) == [n]
  {
    if n in NamedCandidates(digest, memories, now, policy) {
      NamedAreNotStrategic(digest, memories, now, policy, n);
    } else {
      PatternIsStrategic(digest, memories, now, policy, n);
    }
  }

  lemma StrategicCandidatesAgree(
      digest: Digest, memories: seq<Memory>, now: string, policy: ExtractionPolicy, c: Nutrient, d: Nutrient)
    requires c in Candidates(digest, memories, now, policy) && c.nutrientType == StrategicSummaryCandidate
    requires d in Candidates(digest, memories, now, policy) && d.nutrientType == StrategicSummaryCandidate
    ensures c == d
  {
    OneStrategicCandidate(digest, memories, now, policy, c);
    OneStrategicCandidate(digest, memories, now, policy, d);
    assert [c][0] == [d][0];
  }

  lemma ComposedLineage(digest: Digest, memories: seq<Memory>, now: string, n: Nutrient, ids: iset<string>)
    requires Composed(digest, memories, now, n) && Over(memories, ids)
    ensures n.sourceMemoryIds == [] ==> n.nutrientType == StrategicSummaryCandidate
    ensures n.sourceMemoryIds != [] ==> IsLineage(n.sourceMemoryIds, ids)
    ensures n.auditRequired ==> Behind(memories, n.sourceMemoryIds)
  {
    var t: NutrientType, source: seq<Memory>, crossDomainCount: nat :|
      && (forall m :: m in source ==> m in memories) && (source == [] ==> t == StrategicSummaryCandidate)
      && n == Compose(digest, t, source, now, crossDomainCount);
    UniqueSortedProperties(Ids(source));
    UniqueSortedIdempotent(Ids(source));
    IdsMembers(source);
    if source != [] {
      assert Ids(source)[0] in UniqueSorted(Ids(source));
    }
    if n.auditRequired {
      var m :| m in source && m.auditRequired;
      assert m.memoryId in Ids(source);
    }
  }

  /** A flagged candidate has the lineage of every candidate with its key. */
  lemma FlaggedLineage(
      digest: Digest, memories: seq<Memory>, now: string, policy: ExtractionPolicy, ids: iset<string>, c: Nutrient,
      d: Nutrient)
    requires Separable(ids) && Over(memories, ids)
    requires c in Candidates(digest, memories, now, policy) && d in Candidates(digest, memories, now, policy)
    requires NutrientKey(c) == NutrientKey(d) && c.auditRequired
    ensures c.sourceMemoryIds == d.sourceMemoryIds && Behind(memories, c.sourceMemoryIds)
  {
    CandidatesComposed(digest, memories, now, policy);
    ComposedLineage(digest, memories, now, c, ids);
    ComposedLineage(digest, memories, now, d, ids);
    EqualKeys(c, d);
    if d.sourceMemoryIds == [] {
      StrategicCandidatesAgree(digest, memories, now, policy, c, d);
    }
  }

  lemma ExtractedIsFold(candidates: seq<Nutrient>, policy: ExtractionPolicy, n: Nutrient) returns (group: seq<Nutrient>)
    requires n in Finished(candidates, policy)
    ensures group != [] && forall c :: c in group ==> c in candidates && NutrientKey(c) == NutrientKey(group[0])
    ensures n.auditRequired <==> exists c :: c in group && c.auditRequired
    ensures n.sourceMemoryIds == group[0].sourceMemoryIds
  {
    var merged := Consolidated(candidates, NutrientKey, MergeNutrients);
    var i :| 0 <= i < |merged| && Finished(candidates, policy)[i] == n;
    var k := KeysOf(candidates, NutrientKey)[i];
    group := Group(candidates, NutrientKey, k);
    GroupMembers(candidates, NutrientKey, k);
    assert group[0] in group;
    FoldAudit(group);
    assert n == Promote(merged[i], policy);
  }

  lemma SeparableIsExact(
      digest: Digest, memories: seq<Memory>, now: string, policy: ExtractionPolicy, ids: iset<string>, n: Nutrient)
    requires Separable(ids) && Over(memories, ids) && DistinctIds(memories)
    requires n in Extract(digest, memories, now, policy)
    ensures Exact(memories, n)
  {
    var candidates := Candidates(digest, memories, now, policy);
    CandidatesComposed(digest, memories, now, policy);
    ComposedAreWellMade(digest, memories, now, candidates);
    FinishedWellMade(digest, memories, candidates, policy);
    assert WellMade(digest, memories, n);
    var group := ExtractedIsFold(candidates, policy, n);
    if n.auditRequired {
      var c :| c in group && c.auditRequired;
      assert group[0] in group;
      FlaggedLineage(digest, memories, now, policy, ids, c, group[0]);
    }
  }

  // ---------------------------------------------------------------- inseparable ones lend the flag

  /** A memory that names policies and nothing else. */
  function PolicyMemory(id: string, policyIds: seq<string>, auditRequired: bool): Memory {
    Memory(id, None, [], [], policyIds, None, None, 0.0, None, None, 0.0, auditRequired, None)
  }

  ghost predicate PolicyOnly(memories: seq<Memory>) {
    forall m :: m in memories ==> m == PolicyMemory(m.memoryId, m.policyIds, m.auditRequired)
  }

  /** One memory is enough for anything, whatever confidence promotion asks for. */
  function OneEach(promoteConfidenceThreshold: real): ExtractionPolicy {
    ExtractionPolicy(1.0, promoteConfidenceThreshold, 1.0, 1.0, 1.0, 1.0, 1.0, 0.0, 1.0, 1.0, 1.0)
  }

  function AboutPolicies(digest: Digest, memories: seq<Memory>, now: string): seq<Nutrient> {
    GroupNutrients(digest, memories, PolicyKeys, PolicyDependency, now, Always())
  }

  function MergedAboutPolicies(digest: Digest, memories: seq<Memory>, now: string): seq<Nutrient> {
    Consolidated(AboutPolicies(digest, memories, now), NutrientKey, MergeNutrients)
  }

  lemma {:induction false} NoKeysNoGroups(memories: seq<Memory>, keysOf: Memory -> seq<string>)
    requires forall m :: m in memories ==> keysOf(m) == []
    ensures Grouped(memories, keysOf) == Empty()
  {
    if memories != [] {
      NoKeysNoGroups(DropLast(memories), keysOf);
      assert Last(memories) in memories;
    }
  }

  lemma NothingGrouped(
      digest: Digest, memories: seq<Memory>, keysOf: Memory -> seq<string>, t: NutrientType, now: string, keep: Keep)
    requires forall m :: m in memories ==> keysOf(m) == []
    ensures GroupNutrients(digest, memories, keysOf, t, now, keep) == []
  {
    NoKeysNoGroups(memories, keysOf);
    GroupedPartitions(memories, keysOf);
    assert Grouped(memories, keysOf).Values() == [];
  }

  /** Such memories yield nutrients about their policies only. */
  lemma PolicyCandidates(digest: Digest, memories: seq<Memory>, now: string, threshold: real)
    requires PolicyOnly(memories)
    ensures Candidates(digest, memories, now, OneEach(threshold)) == AboutPolicies(digest, memories, now)
  {
    NamedPolicyCandidates(digest, memories, now, OneEach(threshold));
    NoPatternCandidates(digest, memories, now, OneEach(threshold));
  }

  lemma NamedPolicyCandidates(digest: Digest, memories: seq<Memory>, now: string, policy: ExtractionPolicy)
    requires PolicyOnly(memories)
    ensures NamedCandidates(digest, memories, now, policy) == AboutPolicies(digest, memories, now)
  {
    NothingGrouped(digest, memories, BlockerKeys, RecurringBlocker, now, AtLeast(policy.recurringBlockerMinCount));
    NothingGrouped(digest, memories, StakeholderKeys, StakeholderSignal, now,
                   AtLeast(policy.stakeholderSignalMinCount));
    NothingGrouped(digest, memories, DecisionKeys, DecisionTrail, now, IsDecisionTrail(policy));
  }

  lemma NoPatternCandidates(digest: Digest, memories: seq<Memory>, now: string, policy: ExtractionPolicy)
    requires PolicyOnly(memories)
    requires policy.contradictionClusterMinContradictions == 1.0 && policy.strategicCrossDomainMinCount == 1.0
    ensures PatternCandidates(digest, memories, now, policy) == []
  {
    NothingGrouped(digest, memories, OperationKeys, OperationalPattern, now, IsOperationalPattern(policy));
    NothingGrouped(digest, memories, RiskKeys, RiskEvolution, now, AtLeast(policy.riskEvolutionMinCount));
    FilterNone(memories, (m: Memory) => m.contradictionCount >= policy.contradictionClusterMinContradictions);
    FilterNone(memories, (m: Memory) => m.memoryWeight >= 65.0);
  }

  lemma MergedIsExtracted(digest: Digest, memories: seq<Memory>, now: string, threshold: real, n: Nutrient)
    requires PolicyOnly(memories) && n in MergedAboutPolicies(digest, memories, now)
    ensures Promote(n, OneEach(threshold)) in Extract(digest, memories, now, OneEach(threshold))
  {
    PolicyCandidates(digest, memories, now, threshold);
    var merged := MergedAboutPolicies(digest, memories, now);
    var i :| 0 <= i < |merged| && merged[i] == n;
    assert Extract(digest, memories, now, OneEach(threshold))[i] == Promote(n, OneEach(threshold));
  }

  lemma {:induction false} AddAllKeepsFront(groups: Groups, keys: seq<string>, m: Memory)
    ensures groups.keys <= AddAll(groups, keys, m).keys
  {
    if keys != [] {
      AddAllKeepsFront(groups, DropLast(keys), m);
    }
  }

  lemma {:induction false} AddAllToEmpty(keys: seq<string>, m: Memory)
    requires keys != []
    ensures var r := AddAll(Empty(), keys, m); r.keys != [] && r.keys[0] == keys[0]
  {
    var none: Groups := Empty();
    assert none.Valid();
    AddAllMembers(none, DropLast(keys), m);
    if |keys| > 1 {
      AddAllToEmpty(DropLast(keys), m);
    } else {
      assert AddAll(none, DropLast(keys), m) == none;
    }
  }

  /** The first key the first memory names opens the first group. */
  lemma {:induction false} FirstKey(memories: seq<Memory>, keysOf: Memory -> seq<string>)
    requires memories != [] && keysOf(memories[0]) != []
    ensures Grouped(memories, keysOf).keys != [] && Grouped(memories, keysOf).keys[0] == keysOf(memories[0])[0]
  {
    var front, m := DropLast(memories), Last(memories);
    if front == [] {
      AddAllToEmpty(keysOf(m), m);
    } else {
      FirstKey(front, keysOf);
      AddAllKeepsFront(Grouped(front, keysOf), keysOf(m), m);
    }
  }

  /** The memories that name a policy have exactly these identifiers. */
  ghost predicate Names(memories: seq<Memory>, policyId: string, lineage: seq<string>) {
    && UniqueSorted(lineage) == lineage && lineage != []
    && forall id :: id in lineage <==> exists m :: m in memories && m.memoryId == id && policyId in m.policyIds
  }

  lemma GroupIds(memories: seq<Memory>, policyId: string, source: seq<Memory>, lineage: seq<string>)
    requires Names(memories, policyId, lineage)
    requires forall m :: m in source <==> m in memories && policyId in m.policyIds
    ensures forall id :: id in Ids(source) <==> id in lineage
  {
    IdsMembers(source);
    forall id ensures id in Ids(source) <==> id in lineage {
      if id in lineage {
        var m :| m in memories && m.memoryId == id && policyId in m.policyIds;
        assert m in source;
      }
    }
  }

  lemma PolicyGroup(memories: seq<Memory>, policyId: string, lineage: seq<string>) returns (source: seq<Memory>)
    requires Names(memories, policyId, lineage)
    ensures Grouped(memories, PolicyKeys).Valid() && policyId in Grouped(memories, PolicyKeys).vals
    ensures source == Grouped(memories, PolicyKeys).vals[policyId]
    ensures UniqueSorted(Ids(source)) == lineage
    ensures forall m :: m in source <==> m in memories && policyId in m.policyIds
  {
    GroupedPartitions(memories, PolicyKeys);
    assert lineage[0] in lineage;
    var m :| m in memories && m.memoryId == lineage[0] && policyId in m.policyIds;
    assert policyId in PolicyKeys(m);
    source := Grouped(memories, PolicyKeys).vals[policyId];
    forall x ensures x in source <==> x in memories && policyId in x.policyIds {
      assert PolicyKeys(x) == x.policyIds;
    }
    GroupIds(memories, policyId, source, lineage);
    UniqueSortedExtensional(Ids(source), lineage);
  }

  lemma PolicyNutrients(digest: Digest, memories: seq<Memory>, now: string)
    ensures Grouped(memories, PolicyKeys).Valid()
    ensures var sources := Grouped(memories, PolicyKeys).Values();
            var nutrients := GroupNutrients(digest, memories, PolicyKeys, PolicyDependency, now, Always());
            && |nutrients| == |sources|
            && forall i :: 0 <= i < |sources| ==> nutrients[i] == Compose(digest, PolicyDependency, sources[i], now, 1)
  {
    GroupedPartitions(memories, PolicyKeys);
    FilterAll(Grouped(memories, PolicyKeys).Values(), Always());
  }

  lemma FirstOfItsGroup(items: seq<Nutrient>)
    requires items != []
    ensures Group(items, NutrientKey, NutrientKey(items[0])) != []
    ensures Group(items, NutrientKey, NutrientKey(items[0]))[0] == items[0]
  {
    var p := HasKey(NutrientKey, NutrientKey(items[0]));
    assert items == [items[0]] + items[1..];
    FilterConcat([items[0]], items[1..], p);
    assert DropLast([items[0]]) == [];
    assert Filter([items[0]], p) == [] + [items[0]];
  }

  /** A flagged candidate with the key of the first one gives the first one's lineage its flag. */
  lemma FirstTakesFlag(candidates: seq<Nutrient>, flagged: Nutrient) returns (n: Nutrient)
    requires candidates != [] && flagged in candidates && flagged.auditRequired
    requires NutrientKey(flagged) == NutrientKey(candidates[0])
    ensures n in Consolidated(candidates, NutrientKey, MergeNutrients) && n.auditRequired
    ensures n.sourceMemoryIds == candidates[0].sourceMemoryIds && n.nutrientType == candidates[0].nutrientType
  {
    var group := Group(candidates, NutrientKey, NutrientKey(candidates[0]));
    FirstOfItsGroup(candidates);
    FlaggedIsGrouped(candidates, flagged);
    FoldAudit(group);
    var i := MergedWith(candidates, NutrientKey, MergeNutrients, candidates[0]);
    n := Consolidated(candidates, NutrientKey, MergeNutrients)[i];
  }

  lemma FlaggedIsGrouped(candidates: seq<Nutrient>, flagged: Nutrient)
    requires candidates != [] && flagged in candidates && NutrientKey(flagged) == NutrientKey(candidates[0])
    ensures flagged in Group(candidates, NutrientKey, NutrientKey(candidates[0]))
  {
    GroupMembers(candidates, NutrientKey, NutrientKey(candidates[0]));
  }

  lemma PolicyCandidate(
      digest: Digest, memories: seq<Memory>, policyId: string, lineage: seq<string>, now: string, j: nat)
    requires PolicyOnly(memories) && Names(memories, policyId, lineage)
    requires j < |Grouped(memories, PolicyKeys).keys| && Grouped(memories, PolicyKeys).keys[j] == policyId
    ensures var candidates := AboutPolicies(digest, memories, now);
            && j < |candidates| && candidates[j].nutrientType == PolicyDependency
               && candidates[j].sourceMemoryIds == lineage
            && (candidates[j].auditRequired <==>
                exists m :: m in memories && policyId in m.policyIds && m.auditRequired)
  {
    PolicyNutrients(digest, memories, now);
    var source := PolicyGroup(memories, policyId, lineage);
  }

  /** Two policies whose lineages join alike make one nutrient, with the first one's lineage and either one's flag. */
  lemma FlagIsLent(
      digest: Digest, memories: seq<Memory>, p: string, a: seq<string>, q: string, b: seq<string>, now: string)
    returns (n: Nutrient)
    requires PolicyOnly(memories) && Names(memories, p, a) && Names(memories, q, b) && Join(a, "|") == Join(b, "|")
    requires memories != [] && memories[0].policyIds != [] && memories[0].policyIds[0] == p
    requires exists m :: m in memories && q in m.policyIds && m.auditRequired
    ensures n in MergedAboutPolicies(digest, memories, now)
    ensures n.nutrientType == PolicyDependency && n.sourceMemoryIds == a && n.auditRequired
  {
    FirstKey(memories, PolicyKeys);
    PolicyCandidate(digest, memories, p, a, now, 0);
    var second := PolicyGroup(memories, q, b);
    var j :| 0 <= j < |Grouped(memories, PolicyKeys).keys| && Grouped(memories, PolicyKeys).keys[j] == q;
    PolicyCandidate(digest, memories, q, b, now, j);
    var candidates := AboutPolicies(digest, memories, now);
    n := FirstTakesFlag(candidates, candidates[j]);
  }

  /** One memory for each identifier of two lineages, naming a policy for each lineage it is in. */
  function FirstMemory(b: seq<string>, flagged: string): string -> Memory {
    (id: string) => PolicyMemory(id, if id in b then ["p", "q"] else ["p"], id == flagged)
  }

  function SecondMemory(flagged: string): string -> Memory {
    (id: string) => PolicyMemory(id, ["q"], id == flagged)
  }

  function Besides(a: seq<string>, b: seq<string>): seq<string> {
    Filter(b, (id: string) => id !in a)
  }

  function Witness(a: seq<string>, b: seq<string>, flagged: string): seq<Memory> {
    Map(a, FirstMemory(b, flagged)) + Map(Besides(a, b), SecondMemory(flagged))
  }

  lemma WitnessMembers(a: seq<string>, b: seq<string>, flagged: string, m: Memory)
    ensures m in Witness(a, b, flagged) <==>
            || (m.memoryId in a && m == FirstMemory(b, flagged)(m.memoryId))
            || (m.memoryId in b && m.memoryId !in a && m == SecondMemory(flagged)(m.memoryId))
  {
    FilterMembers(b, (id: string) => id !in a);
    MapMembers(a, FirstMemory(b, flagged), m);
    MapMembers(Besides(a, b), SecondMemory(flagged), m);
  }

  lemma WitnessShape(a: seq<string>, b: seq<string>, flagged: string)
    ensures PolicyOnly(Witness(a, b, flagged)) && DistinctIds(Witness(a, b, flagged))
    ensures forall m :: m in Witness(a, b, flagged) ==> m.memoryId in a || m.memoryId in b
    ensures forall m :: m in Witness(a, b, flagged) ==> (m.auditRequired <==> m.memoryId == flagged)
    ensures forall m :: m in Witness(a, b, flagged) ==> ("p" in m.policyIds <==> m.memoryId in a)
    ensures forall m :: m in Witness(a, b, flagged) ==> ("q" in m.policyIds <==> m.memoryId in b)
  {
    assert "p" in ["p", "q"] && "q" in ["p", "q"] && "q" !in ["p"] && "p" !in ["q"];
    forall m | m in Witness(a, b, flagged)
      ensures m == if m.memoryId in a then FirstMemory(b, flagged)(m.memoryId) else SecondMemory(flagged)(m.memoryId)
      ensures m.memoryId in a || m.memoryId in b
    {
      WitnessMembers(a, b, flagged, m);
    }
  }

  lemma WitnessHas(a: seq<string>, b: seq<string>, flagged: string, id: string) returns (m: Memory)
    requires id in a || id in b
    ensures m in Witness(a, b, flagged) && m.memoryId == id
  {
    m := if id in a then FirstMemory(b, flagged)(id) else SecondMemory(flagged)(id);
    WitnessMembers(a, b, flagged, m);
  }

  lemma WitnessNames(a: seq<string>, b: seq<string>, flagged: string)
    requires UniqueSorted(a) == a && UniqueSorted(b) == b && a != [] && b != []
    ensures Names(Witness(a, b, flagged), "p", a) && Names(Witness(a, b, flagged), "q", b)
  {
    WitnessShape(a, b, flagged);
    forall id | id in a || id in b ensures exists m :: m in Witness(a, b, flagged) && m.memoryId == id {
      var m := WitnessHas(a, b, flagged, id);
    }
  }

  /** Two lineages that join alike make an inexact flag. */
  lemma JoinedAlikeIsInexact(digest: Digest, a: seq<string>, b: seq<string>, flagged: string, now: string)
    returns (n: Nutrient)
    requires UniqueSorted(a) == a && UniqueSorted(b) == b && a != [] && b != [] && Join(a, "|") == Join(b, "|")
    requires flagged in b && flagged !in a
    ensures n in MergedAboutPolicies(digest, Witness(a, b, flagged), now)
    ensures n.nutrientType == PolicyDependency && n.sourceMemoryIds == a && n.auditRequired
    ensures !Behind(Witness(a, b, flagged), a)
  {
    var w := Witness(a, b, flagged);
    WitnessShape(a, b, flagged);
    WitnessNames(a, b, flagged);
    assert w[0] == FirstMemory(b, flagged)(a[0]);
    var m := WitnessHas(a, b, flagged, flagged);
    n := FlagIsLent(digest, w, "p", a, "q", b, now);
  }

  lemma DifferentLineagesDiffer(a: seq<string>, b: seq<string>) returns (id: string)
    requires UniqueSorted(a) == a && UniqueSorted(b) == b && a != b
    ensures id in a <==> id !in b
  {
    if forall x :: x in a <==> x in b {
      UniqueSortedExtensional(a, b);
      assert false;
    }
    id :| !(id in a <==> id in b);
  }

  /** Over inseparable identifiers some memories, whatever promotion asks for, yield a nutrient with a foreign flag. */
  lemma InseparableLendsFlag(digest: Digest, ids: iset<string>, now: string)
    returns (memories: seq<Memory>, n: Nutrient)
    requires !Separable(ids)
    ensures PolicyOnly(memories) && DistinctIds(memories) && Over(memories, ids)
    ensures n in MergedAboutPolicies(digest, memories, now) && n.nutrientType == PolicyDependency
    ensures n.sourceMemoryIds != [] && n.auditRequired && !Behind(memories, n.sourceMemoryIds)
  {
    var a, b :| IsLineage(a, ids) && IsLineage(b, ids) && Join(a, "|") == Join(b, "|") && a != b;
    var flagged := DifferentLineagesDiffer(a, b);
    var first, second := a, b;
    if flagged in a { first, second := b, a; }
    memories := Witness(first, second, flagged);
    n := JoinedAlikeIsInexact(digest, first, second, flagged, now);
    WitnessShape(first, second, flagged);
  }

  lemma InseparableIsInexact(digest: Digest, ids: iset<string>)
    requires !Separable(ids)
    ensures !AlwaysExact(digest, ids)
  {
    var memories, n := InseparableLendsFlag(digest, ids, "");
    MergedIsExtracted(digest, memories, "", 0.0, n);
    assert !Exact(memories, Promote(n, OneEach(0.0)));
  }

  /** The audit flag is exact for all memories over some identifiers, all policies and all nutrients, if and only if
      joining with bars tells all lineages over them apart. */
  lemma AuditFlagExactIff(digest: Digest, ids: iset<string>)
    ensures AlwaysExact(digest, ids) <==> Separable(ids)
  {
    if Separable(ids) {
      forall memories, now, policy, n
        | DistinctIds(memories) && Over(memories, ids) && n in Extract(digest, memories, now, policy)
        ensures Exact(memories, n)
      {
        SeparableIsExact(digest, memories, now, policy, ids, n);
      }
    } else {
      InseparableIsInexact(digest, ids);
    }
  }

  // ---------------------------------------------------------------- identifiers without bars

  ghost predicate BarFree(ids: iset<string>) {
    forall id :: id in ids ==> '|' !in id
  }

  lemma JoinParts(ids: seq<string>)
    requires |ids| > 1
    ensures Join(ids, "|") == ids[0] + "|" + Join(ids[1..], "|")
  {
    var rest := ids[1..];
    assert JoinTail(rest, "|") == "|" + rest[0] + JoinTail(rest[1..], "|");
  }

  lemma JoinSingle(id: string)
    ensures Join([id], "|") == id
  {
    assert JoinTail([], "|") == "";
  }

  /** Joining identifiers without bars is injective on lists that are not empty. */
  lemma {:induction false} JoinInjective(a: seq<string>, b: seq<string>)
    requires a != [] && b != [] && Join(a, "|") == Join(b, "|")
    requires (forall id :: id in a ==> '|' !in id) && (forall id :: id in b ==> '|' !in id)
    ensures a == b
  {
    assert a[0] in a && b[0] in b;
    assert forall id :: id in a[1..] ==> id in a;
    assert forall id :: id in b[1..] ==> id in b;
    if |a| == 1 && |b| == 1 {
      JoinSingle(a[0]);
      JoinSingle(b[0]);
      assert a == [a[0]] && b == [b[0]];
    } else if |a| == 1 {
      OneIsNotMany(a[0], b);
    } else if |b| == 1 {
      OneIsNotMany(b[0], a);
    } else {
      JoinParts(a);
      JoinParts(b);
      SplitAtFirst(a[0], Join(a[1..], "|"), b[0], Join(b[1..], "|"), '|');
      JoinInjective(a[1..], b[1..]);
      assert a == [a[0]] + a[1..] && b == [b[0]] + b[1..];
    }
  }

  lemma OneIsNotMany(id: string, ids: seq<string>)
    requires '|' !in id && |ids| > 1
    ensures Join([id], "|") != Join(ids, "|")
  {
    JoinSingle(id);
    JoinParts(ids);
    assert (ids[0] + "|" + Join(ids[1..], "|"))[|ids[0]|] == '|';
  }

  /** Identifiers without bars are separable, the empty one included. */
  lemma BarFreeIsSeparable(ids: iset<string>)
    requires BarFree(ids)
    ensures Separable(ids)
  {
    forall a, b | IsLineage(a, ids) && IsLineage(b, ids) && Join(a, "|") == Join(b, "|") ensures a == b {
      JoinInjective(a, b);
    }
  }

  /** So without bars in memory identifiers every flag is exact. */
  lemma AuditFlagIsExact(digest: Digest, memories: seq<Memory>, now: string, policy: ExtractionPolicy, n: Nutrient)
    requires DistinctIds(memories) && (forall m :: m in memories ==> '|' !in m.memoryId)
    requires n in Extract(digest, memories, now, policy)
    ensures Exact(memories, n)
  {
    var ids := iset id: string | '|' !in id;
    BarFreeIsSeparable(ids);
    SeparableIsExact(digest, memories, now, policy, ids, n);
  }

  /** With bars they need not be: "a|b" naming one policy takes over the flag of "b", which names another with "a". */
  lemma BarsLendTheFlag(digest: Digest, now: string) returns (n: Nutrient)
    ensures var memories := [PolicyMemory("a|b", ["p"], false), PolicyMemory("a", ["q"], false),
                             PolicyMemory("b", ["q"], true)];
            && DistinctIds(memories) && n in Extract(digest, memories, now, OneEach(0.0))
            && n.sourceMemoryIds == ["a|b"] && n.auditRequired && !Behind(memories, n.sourceMemoryIds)
  {
    var a, b := ["a|b"], ["a", "b"];
    BarsJoinAlike();
    SortedAlready();
    var memories := [PolicyMemory("a|b", ["p"], false), PolicyMemory("a", ["q"], false),
                     PolicyMemory("b", ["q"], true)];
    FilterAll(b, (id: string) => id !in a);
    assert Witness(a, b, "b") == memories by {
      assert Map(a, FirstMemory(b, "b")) == [FirstMemory(b, "b")("a|b")];
      assert Map(b, SecondMemory("b")) == [SecondMemory("b")("a"), SecondMemory("b")("b")];
    }
    WitnessShape(a, b, "b");
    var merged := JoinedAlikeIsInexact(digest, a, b, "b", now);
    MergedIsExtracted(digest, memories, now, 0.0, merged);
    n := Promote(merged, OneEach(0.0));
  }

  lemma BarsJoinAlike()
    ensures Join(["a|b"], "|") == Join(["a", "b"], "|")
  {
    JoinSingle("a|b");
    JoinParts(["a", "b"]);
    assert ["a", "b"][1..] == ["b"];
    JoinSingle("b");
    assert "a" + "|" + "b" == "a|b";
  }

  lemma SortedAlready()
    ensures UniqueSorted(["a|b"]) == ["a|b"] && UniqueSorted(["a", "b"]) == ["a", "b"]
  {
    UniqueSortedFixed(["a|b"]);
    UniqueSortedFixed(["a", "b"]);
  }
}
