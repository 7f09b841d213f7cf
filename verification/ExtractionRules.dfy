/** Which nutrients extraction pushes, from which memories, and which of them it promotes, told from memories and policy
    alone (protocol/memory/nutrient-engine.ts). */
module ExtractionRules {
  import opened Wrappers
  import opened Sequences
  import opened OrderedMaps
  import opened Text
  import opened Consolidation
  import opened Identifiers
  import opened Scores
  import opened Nutrients

  // ---------------------------------------------------------------- the members of a group

  function Count(keys: seq<string>, k: string): nat {
    if keys == [] then 0 else Count(DropLast(keys), k) + if Last(keys) == k then 1 else 0
  }

  function Copies(n: nat, m: Memory): seq<Memory> {
    seq(n, i => m)
  }

  /** The memories that name a key, in their order, each as often as it names it. */
  function Naming(memories: seq<Memory>, keysOf: Memory -> seq<string>, k: string): seq<Memory> {
    if memories == [] then []
    else Naming(DropLast(memories), keysOf, k) + Copies(Count(keysOf(Last(memories)), k), Last(memories))
  }

  function MembersOf(groups: Groups, k: string): seq<Memory> {
    if k in groups.vals then groups.vals[k] else []
  }

  lemma {:induction false} AddAllCopies(groups: Groups, keys: seq<string>, m: Memory, k: string)
    ensures MembersOf(AddAll(groups, keys, m), k) == MembersOf(groups, k) + Copies(Count(keys, k), m)
  {
    if keys != [] {
      AddAllCopies(groups, DropLast(keys), m, k);
    }
  }

  /** A group holds the memories that name its key. */
  lemma {:induction false} GroupIsNaming(memories: seq<Memory>, keysOf: Memory -> seq<string>, k: string)
    ensures MembersOf(Grouped(memories, keysOf), k) == Naming(memories, keysOf, k)
  {
    if memories != [] {
      GroupIsNaming(DropLast(memories), keysOf, k);
      AddAllCopies(Grouped(DropLast(memories), keysOf), keysOf(Last(memories)), Last(memories), k);
    }
  }

  /** Where a memory names a key at most once, these are the memories that do. */
  lemma {:induction false} NamingIsFilter(
      memories: seq<Memory>, keysOf: Memory -> seq<string>, k: string, names: Memory -> bool)
    requires forall m :: Count(keysOf(m), k) == if names(m) then 1 else 0
    ensures Naming(memories, keysOf, k) == Filter(memories, names)
  {
    if memories != [] {
      NamingIsFilter(DropLast(memories), keysOf, k, names);
    }
  }

  lemma CountOne(o: Option<string>, k: string)
    ensures Count(Truthy(o), k) == if o == Some(k) && k != "" then 1 else 0
  {
    if o.Some? && o.value != "" {
      assert DropLast(Truthy(o)) == [];
    }
  }

  ghost predicate Composes(
      memories: seq<Memory>, keysOf: Memory -> seq<string>, keep: Keep, make: Make, n: Nutrient, k: string) {
    var group := Naming(memories, keysOf, k);
    group != [] && keep(group) && n == make(group)
  }

  /** How a nutrient is made of its source. */
  type Make = seq<Memory> -> Nutrient

  function Making(digest: Digest, t: NutrientType, now: string): Make {
    (g: seq<Memory>) => Compose(digest, t, g, now, 1)
  }

  lemma GroupOfKey(memories: seq<Memory>, keysOf: Memory -> seq<string>, group: seq<Memory>)
    ensures var groups := Grouped(memories, keysOf);
            groups.Valid()
            && (group in groups.Values() <==> group != [] && exists k :: Naming(memories, keysOf, k) == group)
  {
    var groups := Grouped(memories, keysOf);
    GroupedPartitions(memories, keysOf);
    groups.ValuesMembers(group);
    if group in groups.Values() {
      var k :| k in groups.vals && groups.vals[k] == group;
      GroupIsNaming(memories, keysOf, k);
    }
    if k :| Naming(memories, keysOf, k) == group && group != [] {
      GroupIsNaming(memories, keysOf, k);
      assert k in groups.vals;
    }
  }

  /** One nutrient per key whose group passes, and no other. */
  lemma GroupNutrientsIff(memories: seq<Memory>, keysOf: Memory -> seq<string>, keep: Keep, make: Make, n: Nutrient)
    requires Grouped(memories, keysOf).Valid()
    ensures n in Map(Filter(Grouped(memories, keysOf).Values(), keep), make) <==>
            exists k :: Composes(memories, keysOf, keep, make, n, k)
  {
    var kept := Filter(Grouped(memories, keysOf).Values(), keep);
    FilterMembers(Grouped(memories, keysOf).Values(), keep);
    MapMembers(kept, make, n);
    if group :| group in kept && n == make(group) {
      GroupOfKey(memories, keysOf, group);
      var k :| Naming(memories, keysOf, k) == group;
      assert Composes(memories, keysOf, keep, make, n, k);
    }
    if k :| Composes(memories, keysOf, keep, make, n, k) {
      GroupOfKey(memories, keysOf, Naming(memories, keysOf, k));
      assert Naming(memories, keysOf, k) in kept;
    }
  }

  lemma GroupNutrientsAre(
      digest: Digest, memories: seq<Memory>, keysOf: Memory -> seq<string>, t: NutrientType, now: string, keep: Keep)
    ensures Grouped(memories, keysOf).Valid()
    ensures GroupNutrients(digest, memories, keysOf, t, now, keep) ==
            Map(Filter(Grouped(memories, keysOf).Values(), keep), Making(digest, t, now))
  {
    GroupedPartitions(memories, keysOf);
  }

  // ---------------------------------------------------------------- what warrants a nutrient

  function BlockedBy(k: string): Memory -> bool { (m: Memory) => m.blockerKey == Some(k) }

  function DecidedBy(k: string): Memory -> bool { (m: Memory) => m.decisionId == Some(k) }

  function AtRisk(k: string): Memory -> bool { (m: Memory) => m.riskTopic == Some(k) }

  /** An absent execution key leaves the word to the memory's type, an empty one does not. */
  function Operates(k: string): Memory -> bool {
    (m: Memory) => if m.executionKey.Some? then m.executionKey == Some(k) else m.kind == Some(k)
  }

  function Contradicts(least: real): Memory -> bool { (m: Memory) => m.contradictionCount >= least }

  function Weighty(): Memory -> bool { (m: Memory) => m.memoryWeight >= 65.0 }

  function StakeholdersOf(): Memory -> seq<string> { (m: Memory) => m.stakeholderIds }

  function PoliciesOf(): Memory -> seq<string> { (m: Memory) => m.policyIds }

  function WeightSum(memories: seq<Memory>): real {
    if memories == [] then 0.0 else WeightSum(DropLast(memories)) + Last(memories).memoryWeight
  }

  ghost function Domains(memories: seq<Memory>): set<string> {
    set m | m in memories :: if m.domain.Some? then m.domain.value else "unknown"
  }

  /** The memories are the source of a nutrient of this type. */
  ghost predicate Warrants(memories: seq<Memory>, policy: ExtractionPolicy, t: NutrientType, source: seq<Memory>) {
    match t
    case RecurringBlocker =>
      source != [] && |source| as real >= policy.recurringBlockerMinCount
      && exists k :: k != "" && source == Filter(memories, BlockedBy(k))
    case StakeholderSignal =>
      source != [] && |source| as real >= policy.stakeholderSignalMinCount
      && exists k :: source == Naming(memories, StakeholdersOf(), k)
    case DecisionTrail =>
      source != []
      && (|source| as real >= policy.decisionTrailMinCount || exists m :: m in source && m.linkedMemoryIds != [])
      && exists k :: k != "" && source == Filter(memories, DecidedBy(k))
    case PolicyDependency =>
      source != [] && exists k :: source == Naming(memories, PoliciesOf(), k)
    case ContradictionCluster =>
      source != [] && source == Filter(memories, Contradicts(policy.contradictionClusterMinContradictions))
    case OperationalPattern =>
      source != [] && |source| as real >= policy.operationalPatternMinCount
      && MeanWeight(source) >= policy.operationalPatternMinWeightAverage
      && exists k :: k != "" && source == Filter(memories, Operates(k))
    case RiskEvolution =>
      source != [] && |source| as real >= policy.riskEvolutionMinCount
      && exists k :: k != "" && source == Filter(memories, AtRisk(k))
    case StrategicSummaryCandidate =>
      source == Filter(memories, Weighty()) && |source| as real >= policy.strategicCrossDomainMinCount
      && |Domains(source)| as real >= policy.strategicCrossDomainMinDomains
    case GovernanceLesson => false
    case ExecutionInsight => false
  }

  lemma {:induction false} WeightSumIsSum(memories: seq<Memory>)
    ensures Sum(Map(memories, WeightOf)) == WeightSum(memories)
  {
    if memories != [] {
      WeightSumIsSum(DropLast(memories));
      var weights := Map(memories, WeightOf);
      assert weights[..|weights| - 1] == Map(DropLast(memories), WeightOf);
    }
  }

  function MeanWeight(memories: seq<Memory>): real {
    if memories == [] then 0.0 else WeightSum(memories) / |memories| as real
  }

  lemma MeanIsAverage(memories: seq<Memory>)
    ensures Average(Map(memories, WeightOf)) == MeanWeight(memories)
  {
    WeightSumIsSum(memories);
    assert |Map(memories, WeightOf)| == |memories|;
  }

  lemma DomainsCounted(memories: seq<Memory>)
    ensures DomainCount(memories) == |Domains(memories)|
  {
    var domains := Map(memories, (m: Memory) => m.domain.GetOr("unknown"));
    DedupeProperties(domains);
    DistinctCardinality(Dedupe(domains));
    forall d ensures d in Dedupe(domains) <==> d in Domains(memories) {
      if d in domains {
        var i :| 0 <= i < |domains| && domains[i] == d;
        assert memories[i] in memories;
      }
      if d in Domains(memories) {
        var m :| m in memories && (if m.domain.Some? then m.domain.value else "unknown") == d;
        var i :| 0 <= i < |memories| && memories[i] == m;
        assert domains[i] == d;
      }
    }
    assert (set d | d in Dedupe(domains)) == Domains(memories);
  }

  lemma NamedByWord(memories: seq<Memory>, keysOf: Memory -> seq<string>, names: Memory -> bool, k: string)
    requires forall m :: Count(keysOf(m), k) == if names(m) && k != "" then 1 else 0
    ensures Naming(memories, keysOf, k) == if k != "" then Filter(memories, names) else []
  {
    if k != "" {
      NamingIsFilter(memories, keysOf, k, names);
    } else {
      var none := (m: Memory) => false;
      NamingIsFilter(memories, keysOf, k, none);
      FilterNone(memories, none);
    }
  }

  lemma BlockersAre(memories: seq<Memory>, k: string)
    ensures Naming(memories, BlockerKeys, k) == if k != "" then Filter(memories, BlockedBy(k)) else []
  {
    forall m: Memory ensures Count(BlockerKeys(m), k) == if BlockedBy(k)(m) && k != "" then 1 else 0 {
      CountOne(m.blockerKey, k);
    }
    NamedByWord(memories, BlockerKeys, BlockedBy(k), k);
  }

  lemma DecisionsAre(memories: seq<Memory>, k: string)
    ensures Naming(memories, DecisionKeys, k) == if k != "" then Filter(memories, DecidedBy(k)) else []
  {
    forall m: Memory ensures Count(DecisionKeys(m), k) == if DecidedBy(k)(m) && k != "" then 1 else 0 {
      CountOne(m.decisionId, k);
    }
    NamedByWord(memories, DecisionKeys, DecidedBy(k), k);
  }

  lemma RisksAre(memories: seq<Memory>, k: string)
    ensures Naming(memories, RiskKeys, k) == if k != "" then Filter(memories, AtRisk(k)) else []
  {
    forall m: Memory ensures Count(RiskKeys(m), k) == if AtRisk(k)(m) && k != "" then 1 else 0 {
      CountOne(m.riskTopic, k);
    }
    NamedByWord(memories, RiskKeys, AtRisk(k), k);
  }

  lemma OperationsAre(memories: seq<Memory>, k: string)
    ensures Naming(memories, OperationKeys, k) == if k != "" then Filter(memories, Operates(k)) else []
  {
    forall m: Memory ensures Count(OperationKeys(m), k) == if Operates(k)(m) && k != "" then 1 else 0 {
      CountOne(if m.executionKey.Some? then m.executionKey else m.kind, k);
    }
    NamedByWord(memories, OperationKeys, Operates(k), k);
  }

  lemma {:induction false} NamingAlike(
      memories: seq<Memory>, f: Memory -> seq<string>, g: Memory -> seq<string>, k: string)
    requires forall m :: f(m) == g(m)
    ensures Naming(memories, f, k) == Naming(memories, g, k)
  {
    if memories != [] {
      NamingAlike(DropLast(memories), f, g, k);
    }
  }

  /** The nutrient is made of a source that warrants it. */
  ghost predicate Warranted(memories: seq<Memory>, policy: ExtractionPolicy, t: NutrientType, make: Make, n: Nutrient) {
    exists source :: Warrants(memories, policy, t, source) && n == make(source)
  }

  lemma BlockerNutrients(memories: seq<Memory>, policy: ExtractionPolicy, make: Make, n: Nutrient)
    ensures (exists k :: Composes(memories, BlockerKeys, AtLeast(policy.recurringBlockerMinCount), make, n, k)) <==>
            Warranted(memories, policy, RecurringBlocker, make, n)
  {
    var keep := AtLeast(policy.recurringBlockerMinCount);
    forall k ensures Naming(memories, BlockerKeys, k) == if k != "" then Filter(memories, BlockedBy(k)) else [] {
      BlockersAre(memories, k);
    }
    if k :| Composes(memories, BlockerKeys, keep, make, n, k) {
      assert Warrants(memories, policy, RecurringBlocker, Filter(memories, BlockedBy(k)));
    }
    if source :| Warrants(memories, policy, RecurringBlocker, source) && n == make(source) {
      var k :| k != "" && source == Filter(memories, BlockedBy(k));
      assert Composes(memories, BlockerKeys, keep, make, n, k);
    }
  }

  lemma DecisionNutrients(memories: seq<Memory>, policy: ExtractionPolicy, make: Make, n: Nutrient)
    ensures (exists k :: Composes(memories, DecisionKeys, IsDecisionTrail(policy), make, n, k)) <==>
            Warranted(memories, policy, DecisionTrail, make, n)
  {
    var keep := IsDecisionTrail(policy);
    forall k ensures Naming(memories, DecisionKeys, k) == if k != "" then Filter(memories, DecidedBy(k)) else [] {
      DecisionsAre(memories, k);
    }
    if k :| Composes(memories, DecisionKeys, keep, make, n, k) {
      assert Warrants(memories, policy, DecisionTrail, Filter(memories, DecidedBy(k)));
    }
    if source :| Warrants(memories, policy, DecisionTrail, source) && n == make(source) {
      var k :| k != "" && source == Filter(memories, DecidedBy(k));
      assert Composes(memories, DecisionKeys, keep, make, n, k);
    }
  }

  lemma OperationNutrients(memories: seq<Memory>, policy: ExtractionPolicy, make: Make, n: Nutrient)
    ensures (exists k :: Composes(memories, OperationKeys, IsOperationalPattern(policy), make, n, k)) <==>
            Warranted(memories, policy, OperationalPattern, make, n)
  {
    var keep := IsOperationalPattern(policy);
    forall k ensures Naming(memories, OperationKeys, k) == if k != "" then Filter(memories, Operates(k)) else [] {
      OperationsAre(memories, k);
    }
    if k :| Composes(memories, OperationKeys, keep, make, n, k) {
      MeanIsAverage(Filter(memories, Operates(k)));
      assert Warrants(memories, policy, OperationalPattern, Filter(memories, Operates(k)));
    }
    if source :| Warrants(memories, policy, OperationalPattern, source) && n == make(source) {
      var k :| k != "" && source == Filter(memories, Operates(k));
      MeanIsAverage(source);
      assert Composes(memories, OperationKeys, keep, make, n, k);
    }
  }

  lemma RiskNutrients(memories: seq<Memory>, policy: ExtractionPolicy, make: Make, n: Nutrient)
    ensures (exists k :: Composes(memories, RiskKeys, AtLeast(policy.riskEvolutionMinCount), make, n, k)) <==>
            Warranted(memories, policy, RiskEvolution, make, n)
  {
    var keep := AtLeast(policy.riskEvolutionMinCount);
    forall k ensures Naming(memories, RiskKeys, k) == if k != "" then Filter(memories, AtRisk(k)) else [] {
      RisksAre(memories, k);
    }
    if k :| Composes(memories, RiskKeys, keep, make, n, k) {
      assert Warrants(memories, policy, RiskEvolution, Filter(memories, AtRisk(k)));
    }
    if source :| Warrants(memories, policy, RiskEvolution, source) && n == make(source) {
      var k :| k != "" && source == Filter(memories, AtRisk(k));
      assert Composes(memories, RiskKeys, keep, make, n, k);
    }
  }

  lemma StakeholderNutrients(memories: seq<Memory>, policy: ExtractionPolicy, make: Make, n: Nutrient)
    ensures (exists k :: Composes(memories, StakeholderKeys, AtLeast(policy.stakeholderSignalMinCount), make, n,
                                  k)) <==>
            Warranted(memories, policy, StakeholderSignal, make, n)
  {
    var keep := AtLeast(policy.stakeholderSignalMinCount);
    forall k ensures Naming(memories, StakeholderKeys, k) == Naming(memories, StakeholdersOf(), k) {
      NamingAlike(memories, StakeholderKeys, StakeholdersOf(), k);
    }
    if k :| Composes(memories, StakeholderKeys, keep, make, n, k) {
      assert Warrants(memories, policy, StakeholderSignal, Naming(memories, StakeholdersOf(), k));
    }
    if source :| Warrants(memories, policy, StakeholderSignal, source) && n == make(source) {
      var k :| source == Naming(memories, StakeholdersOf(), k);
      assert Composes(memories, StakeholderKeys, keep, make, n, k);
    }
  }

  lemma PolicyNutrients(memories: seq<Memory>, policy: ExtractionPolicy, make: Make, n: Nutrient)
    ensures (exists k :: Composes(memories, PolicyKeys, Always(), make, n, k)) <==>
            Warranted(memories, policy, PolicyDependency, make, n)
  {
    var keep := Always();
    forall k ensures Naming(memories, PolicyKeys, k) == Naming(memories, PoliciesOf(), k) {
      NamingAlike(memories, PolicyKeys, PoliciesOf(), k);
    }
    if k :| Composes(memories, PolicyKeys, keep, make, n, k) {
      assert Warrants(memories, policy, PolicyDependency, Naming(memories, PoliciesOf(), k));
    }
    if source :| Warrants(memories, policy, PolicyDependency, source) && n == make(source) {
      var k :| source == Naming(memories, PoliciesOf(), k);
      assert Composes(memories, PolicyKeys, keep, make, n, k);
    }
  }

  lemma {:induction false} FilterAlike(memories: seq<Memory>, p: Memory -> bool, q: Memory -> bool)
    requires forall m :: p(m) <==> q(m)
    ensures Filter(memories, p) == Filter(memories, q)
  {
    if memories != [] {
      FilterAlike(DropLast(memories), p, q);
    }
  }

  lemma ContradictionNutrient(digest: Digest, memories: seq<Memory>, now: string, policy: ExtractionPolicy, n: Nutrient)
    ensures n in ContradictionNutrients(digest, memories, now, policy)
            <==> Warranted(memories, policy, ContradictionCluster, Making(digest, ContradictionCluster, now), n)
  {
    var source := Filter(memories, Contradicts(policy.contradictionClusterMinContradictions));
    assert ContradictionSource(memories, policy) == source by {
      FilterAlike(memories, (m: Memory) => m.contradictionCount >= policy.contradictionClusterMinContradictions,
                  Contradicts(policy.contradictionClusterMinContradictions));
    }
    if source != [] { assert Warrants(memories, policy, ContradictionCluster, source); }
  }

  /** A strategic nutrient counts its domains, any other counts as one. */
  function MakingStrategic(digest: Digest, now: string): Make {
    (g: seq<Memory>) => Compose(digest, StrategicSummaryCandidate, g, now, DomainCount(g))
  }

  lemma StrategicSource(memories: seq<Memory>, policy: ExtractionPolicy, source: seq<Memory>)
    ensures Warrants(memories, policy, StrategicSummaryCandidate, source) <==>
            && source == HighWeight(memories) && |source| as real >= policy.strategicCrossDomainMinCount
            && DomainCount(source) as real >= policy.strategicCrossDomainMinDomains
  {
    FilterAlike(memories, (m: Memory) => m.memoryWeight >= 65.0, Weighty());
    DomainsCounted(source);
  }

  lemma StrategicNutrient(digest: Digest, memories: seq<Memory>, now: string, policy: ExtractionPolicy, n: Nutrient)
    ensures n in StrategicNutrients(digest, memories, now, policy)
            <==> Warranted(memories, policy, StrategicSummaryCandidate, MakingStrategic(digest, now), n)
  {
    var source, make := HighWeight(memories), MakingStrategic(digest, now);
    forall x ensures Warrants(memories, policy, StrategicSummaryCandidate, x) ==> x == source {
      StrategicSource(memories, policy, x);
    }
    StrategicSource(memories, policy, source);
    assert StrategicNutrients(digest, memories, now, policy) ==
           if Warrants(memories, policy, StrategicSummaryCandidate, source) then [make(source)] else [];
  }

  /** The ways to be pushed: one for each grouping, with the type of the grouping. */
  ghost predicate IsWarranted(
      digest: Digest, memories: seq<Memory>, now: string, policy: ExtractionPolicy, n: Nutrient) {
    || Warranted(memories, policy, RecurringBlocker, Making(digest, RecurringBlocker, now), n)
    || Warranted(memories, policy, StakeholderSignal, Making(digest, StakeholderSignal, now), n)
    || Warranted(memories, policy, DecisionTrail, Making(digest, DecisionTrail, now), n)
    || Warranted(memories, policy, PolicyDependency, Making(digest, PolicyDependency, now), n)
    || Warranted(memories, policy, ContradictionCluster, Making(digest, ContradictionCluster, now), n)
    || Warranted(memories, policy, OperationalPattern, Making(digest, OperationalPattern, now), n)
    || Warranted(memories, policy, RiskEvolution, Making(digest, RiskEvolution, now), n)
    || Warranted(memories, policy, StrategicSummaryCandidate, MakingStrategic(digest, now), n)
  }

  lemma GroupWarranted(
      digest: Digest, memories: seq<Memory>, keysOf: Memory -> seq<string>, t: NutrientType, now: string, keep: Keep,
      n: Nutrient)
    ensures n in GroupNutrients(digest, memories, keysOf, t, now, keep) <==>
            exists k :: Composes(memories, keysOf, keep, Making(digest, t, now), n, k)
  {
    GroupNutrientsAre(digest, memories, keysOf, t, now, keep);
    GroupNutrientsIff(memories, keysOf, keep, Making(digest, t, now), n);
  }

  lemma NamedIff(digest: Digest, memories: seq<Memory>, now: string, policy: ExtractionPolicy, n: Nutrient)
    ensures n in NamedCandidates(digest, memories, now, policy) <==>
            || Warranted(memories, policy, RecurringBlocker, Making(digest, RecurringBlocker, now), n)
            || Warranted(memories, policy, StakeholderSignal, Making(digest, StakeholderSignal, now), n)
            || Warranted(memories, policy, DecisionTrail, Making(digest, DecisionTrail, now), n)
            || Warranted(memories, policy, PolicyDependency, Making(digest, PolicyDependency, now), n)
  {
    GroupWarranted(digest, memories, BlockerKeys, RecurringBlocker, now, AtLeast(policy.recurringBlockerMinCount), n);
    BlockerNutrients(memories, policy, Making(digest, RecurringBlocker, now), n);
    GroupWarranted(digest, memories, StakeholderKeys, StakeholderSignal, now, AtLeast(policy.stakeholderSignalMinCount),
                   n);
    StakeholderNutrients(memories, policy, Making(digest, StakeholderSignal, now), n);
    GroupWarranted(digest, memories, DecisionKeys, DecisionTrail, now, IsDecisionTrail(policy), n);
    DecisionNutrients(memories, policy, Making(digest, DecisionTrail, now), n);
    GroupWarranted(digest, memories, PolicyKeys, PolicyDependency, now, Always(), n);
    PolicyNutrients(memories, policy, Making(digest, PolicyDependency, now), n);
  }

  lemma PatternIff(digest: Digest, memories: seq<Memory>, now: string, policy: ExtractionPolicy, n: Nutrient)
    ensures n in PatternCandidates(digest, memories, now, policy) <==>
            || Warranted(memories, policy, ContradictionCluster, Making(digest, ContradictionCluster, now), n)
            || Warranted(memories, policy, OperationalPattern, Making(digest, OperationalPattern, now), n)
            || Warranted(memories, policy, RiskEvolution, Making(digest, RiskEvolution, now), n)
            || Warranted(memories, policy, StrategicSummaryCandidate, MakingStrategic(digest, now), n)
  {
    ContradictionNutrient(digest, memories, now, policy, n);
    GroupWarranted(digest, memories, OperationKeys, OperationalPattern, now, IsOperationalPattern(policy), n);
    OperationNutrients(memories, policy, Making(digest, OperationalPattern, now), n);
    GroupWarranted(digest, memories, RiskKeys, RiskEvolution, now, AtLeast(policy.riskEvolutionMinCount), n);
    RiskNutrients(memories, policy, Making(digest, RiskEvolution, now), n);
    StrategicNutrient(digest, memories, now, policy, n);
  }

  /** Extraction pushes exactly the nutrients that are warranted. */
  lemma CandidatesIff(digest: Digest, memories: seq<Memory>, now: string, policy: ExtractionPolicy, n: Nutrient)
    ensures n in Candidates(digest, memories, now, policy) <==> IsWarranted(digest, memories, now, policy, n)
  {
    NamedIff(digest, memories, now, policy, n);
    PatternIff(digest, memories, now, policy, n);
  }

  // ---------------------------------------------------------------- what a nutrient says, and when it is promoted

  /** The boost of a type, in hundredths. */
  function Hundredths(t: NutrientType): int {
    match t
    case StrategicSummaryCandidate => 8
    case RecurringBlocker => 6
    case DecisionTrail => 5
    case RiskEvolution => 5
    case PolicyDependency => 5
    case StakeholderSignal => 4
    case GovernanceLesson => 4
    case ExecutionInsight => 3
    case OperationalPattern => 2
    case ContradictionCluster => 2
  }

  /** The nearest hundredth, upwards from the middle. */
  predicate IsHundredth(x: real, exact: real) {
    exact - 0.005 < x <= exact + 0.005
  }

  /** The confidence in hundredths, before rounding: up to 50 for ten memories, up to 35 for weight, up to 15 for five
      domains, and the boost of the type; never more than 100. */
  function ConfidencePoints(t: NutrientType, evidence: nat, weight: real, domains: nat): real {
    var points := (if evidence < 10 then 5.0 * evidence as real else 50.0)
      + (if weight < 100.0 then 0.35 * weight else 35.0)
                  + (if domains < 5 then 3.0 * domains as real else 15.0) + Hundredths(t) as real;
    if points > 100.0 then 100.0 else points
  }

  lemma RoundsToHundredth(x: real)
    ensures IsHundredth(Round2(x), x) && exists k: int :: IsHundred(k, Round2(x))
  {
    assert IsHundred((x * 100.0 + 0.5).Floor, Round2(x));
  }

  predicate IsHundred(k: int, x: real) {
    x * 100.0 == k as real
  }

  lemma BoostIs(t: NutrientType)
    ensures TypeBoost(t) * 100.0 == Hundredths(t) as real
  {
  }

  lemma ConfidenceIs(t: NutrientType, evidence: nat, weight: real, domains: nat)
    ensures CalculateConfidence(t, evidence, weight, domains)
            == Round2(ConfidencePoints(t, evidence, weight, domains) / 100.0)
  {
    BoostIs(t);
  }

  /** What a composed nutrient says of its source. */
  lemma ComposedSays(digest: Digest, t: NutrientType, source: seq<Memory>, now: string, domains: nat)
    ensures var n := Compose(digest, t, source, now, domains);
            && n.nutrientType == t && n.createdAt == now == n.updatedAt && !n.promoted
            && (forall id :: id in n.sourceMemoryIds <==> exists m :: m in source && m.memoryId == id)
            && Distinct(n.sourceMemoryIds) && n.evidenceCount == |n.sourceMemoryIds|
            && (n.auditRequired <==> exists m :: m in source && m.auditRequired)
            && n.memoryWeightAverage == Round2(MeanWeight(source))
            && n.confidenceScore
               == Round2(ConfidencePoints(t, n.evidenceCount, n.memoryWeightAverage, domains) / 100.0)
  {
    var n := Compose(digest, t, source, now, domains);
    UniqueSortedProperties(Ids(source));
    MeanIsAverage(source);
    ConfidenceIs(t, n.evidenceCount, n.memoryWeightAverage, domains);
    forall id ensures id in Ids(source) <==> exists m :: m in source && m.memoryId == id {
      MapMembers(source, MemoryIdOf, id);
    }
  }

  /** A nutrient is promoted exactly when it has the evidence and the confidence the policy asks for. */
  lemma PromotedIff(digest: Digest, memories: seq<Memory>, now: string, policy: ExtractionPolicy, n: Nutrient)
    requires n in Extract(digest, memories, now, policy)
    ensures n.promoted <==>
            n.evidenceCount as real >= policy.minEvidenceCount && n.confidenceScore >= policy.promoteConfidenceThreshold
  {
    var merged := Consolidated(Candidates(digest, memories, now, policy), NutrientKey, MergeNutrients);
    var i :| 0 <= i < |merged| && Extract(digest, memories, now, policy)[i] == n;
    assert n == Promote(merged[i], policy);
  }

  /** Merging takes the highest confidence and the latest update, and everything else but the audit flag from the
      first. */
  lemma {:induction false} FoldNutrient(group: seq<Nutrient>)
    requires group != []
    ensures var n := Fold(group, MergeNutrients);
            && (forall x :: x in group ==> x.confidenceScore <= n.confidenceScore && StrLe(x.updatedAt, n.updatedAt))
            && (exists x :: x in group && x.confidenceScore == n.confidenceScore)
            && (exists x :: x in group && x.updatedAt == n.updatedAt)
            && n.(confidenceScore := group[0].confidenceScore, updatedAt := group[0].updatedAt,
                  auditRequired := group[0].auditRequired, promoted := group[0].promoted) == group[0]
  {
    StrOrder();
    if |group| > 1 {
      FoldNutrient(DropLast(group));
      assert group == DropLast(group) + [Last(group)];
    } else {
      assert group == [group[0]];
      LexTotal(CodeUnit, group[0].updatedAt, group[0].updatedAt);
    }
  }
}
