/** Bounded context envelopes for machines (protocol/memory/machine-cognition-interface.ts). */
module Envelopes {
  import opened Wrappers
  import opened Sequences
  import opened StableSorting
  import opened Text
  import opened Consolidation
  import opened Identifiers
  import opened RuntimeSignals

  datatype InterfaceType = ContextEnvelope | GovernanceReviewPacket | HumanEscalationPacket

  datatype TaskType =
    | SummarizeGovernedContext | AnalyzeRiskConvergence | ReviewContradiction | DetectPatternDrift
    | PrepareHumanReview | ValidateGovernanceCandidate
    | SuggestNextAction | GenerateExecutiveBrief

  datatype RedactionMode = NoRedaction | HideAuditRequired | HideHumanReview | MinimalLineage

  datatype MachinePolicy = MachinePolicy(
    minimumSignalConfidence: real, allowAuditRequiredContext: bool, allowHumanReviewContext: bool,
    allowMachineSuggestedActions: bool, allowMachineContextExpansion: bool, requireHumanApprovalForAuditRequired: bool,
    maxVisibleMemoryIds: int, redactionMode: RedactionMode, allowedTaskTypes: seq<TaskType>,
    deniedTaskTypes: seq<TaskType>)

  datatype ActionBoundary = ActionBoundary(
    mayReadContext: bool, mayGenerateSummary: bool, maySuggestActions: bool, mayRequestMoreContext: bool,
    mayModifyMemory: bool, mayDeleteMemory: bool, mayPromoteGovernanceMemory: bool,
    requiresHumanApprovalForOutput: bool, requiresAuditLog: bool)

  datatype RedactedView = RedactedView(
    visibleMemoryIds: seq<string>, redactedMemoryIds: seq<string>, reason: string, lineagePreserved: bool)

  datatype Envelope = Envelope(
    envelopeId: string, interfaceType: InterfaceType, taskType: TaskType, sourceSignalIds: seq<string>,
    sourceSynthesisIds: seq<string>, sourceNutrientIds: seq<string>, sourceMemoryIds: seq<string>, createdAt: string,
    confidenceFloor: real, redactedMemoryIds: seq<string>, visibleMemoryIds: seq<string>, auditRequired: bool,
    humanReviewRequired: bool, lineagePreserved: bool, boundary: ActionBoundary)

  datatype AuditPacket = AuditPacket(
    packetId: string, envelopeId: string, sourceSignalIds: seq<string>, createdAt: string, auditRequired: bool,
    humanReviewRequired: bool, lineagePreserved: bool)

  datatype Interfaces = Interfaces(
      envelopes: seq<Envelope>, redactedViews: seq<RedactedView>, auditTracePackets: seq<AuditPacket>)

  function InterfaceName(t: InterfaceType): string {
    match t
    case ContextEnvelope => "CONTEXT_ENVELOPE"
    case GovernanceReviewPacket => "GOVERNANCE_REVIEW_PACKET"
    case HumanEscalationPacket => "HUMAN_ESCALATION_PACKET"
  }

  function TaskName(t: TaskType): string {
    match t
    case SummarizeGovernedContext => "SUMMARIZE_GOVERNED_CONTEXT"
    case AnalyzeRiskConvergence => "ANALYZE_RISK_CONVERGENCE"
    case ReviewContradiction => "REVIEW_CONTRADICTION"
    case DetectPatternDrift => "DETECT_PATTERN_DRIFT"
    case PrepareHumanReview => "PREPARE_HUMAN_REVIEW"
    case ValidateGovernanceCandidate => "VALIDATE_GOVERNANCE_CANDIDATE"
    case SuggestNextAction => "SUGGEST_NEXT_ACTION"
    case GenerateExecutiveBrief => "GENERATE_EXECUTIVE_BRIEF"
  }

  function ClassifyInterface(t: SignalType): InterfaceType {
    if t == HumanReviewRequired then HumanEscalationPacket
    else if t == GovernanceContradiction then GovernanceReviewPacket
    else ContextEnvelope
  }

  function InferTask(t: SignalType): TaskType {
    if t == GovernanceContradiction then ReviewContradiction
    else if t == StrategicRiskConvergence then AnalyzeRiskConvergence
    else if t == GovernanceMemoryCandidate then ValidateGovernanceCandidate
    else if t == HumanReviewRequired then PrepareHumanReview
    else if t == OperationalTruthDrift then DetectPatternDrift
    else SummarizeGovernedContext
  }

  predicate ShouldAllow(s: Signal, policy: MachinePolicy) {
    && s.confidenceScore >= policy.minimumSignalConfidence
    && (s.auditRequired ==> policy.allowAuditRequiredContext)
    && (s.humanReviewRequired ==> policy.allowHumanReviewContext)
    && s.signalType in {AiContextReady, HumanReviewRequired, GovernanceContradiction}
  }

  // ---------------------------------------------------------------- redaction

  predicate HidesAudit(s: Signal, policy: MachinePolicy) {
    (policy.redactionMode == HideAuditRequired || policy.redactionMode == MinimalLineage) && s.auditRequired
  }

  predicate HidesHuman(s: Signal, policy: MachinePolicy) {
    (policy.redactionMode == HideHumanReview || policy.redactionMode == MinimalLineage) && s.humanReviewRequired
  }

  /** `ids.slice(0, n)`: a negative n drops from the end. */
  function SliceFront(ids: seq<string>, n: int): (r: seq<string>)
    ensures r <= ids
    ensures n >= 0 ==> |r| <= n
  {
    if n >= |ids| then ids
    else if n >= 0 then ids[..n]
    else if |ids| + n >= 0 then ids[..|ids| + n]
    else []
  }

  function Preserved(rank: Ranking, visible: seq<string>, max: int): seq<string> {
    SliceFront(Sort(visible, (a, b) => LexLe(rank, a, b)), max)
  }

  function Limited(rank: Ranking, view: RedactedView, max: int): RedactedView {
    if |view.visibleMemoryIds| <= max then view
    else
      var preserve := Preserved(rank, view.visibleMemoryIds, max);
      var overflow := Filter(view.visibleMemoryIds, id => id !in preserve);
      RedactedView(
        preserve, UniqueSorted(view.redactedMemoryIds + overflow),
        if view.reason == "none" then "max_visible_limit"
           else view.reason + "+max_visible_limit", view.lineagePreserved)
  }

  function Redact(rank: Ranking, sourceMemoryIds: seq<string>, s: Signal, policy: MachinePolicy): RedactedView {
    var all := UniqueSorted(sourceMemoryIds);
    var view :=
      if HidesHuman(s, policy) then RedactedView([], all, "human_review_hidden", true)
      else if HidesAudit(s, policy) then RedactedView([], all, "audit_required_hidden", true)
      else RedactedView(all, [], "none", true);
    Limited(rank, view, policy.maxVisibleMemoryIds)
  }

  method ApplyMachineContextRedaction(rank: Ranking, sourceMemoryIds: seq<string>, s: Signal, policy: MachinePolicy)
    returns (view: RedactedView)
    ensures view == Redact(rank, sourceMemoryIds, s, policy)
  {
    var allMemoryIds := UniqueSorted(sourceMemoryIds);
    var visible, redacted, reason := allMemoryIds, [], "none";
    if HidesAudit(s, policy) {
      visible, redacted, reason := [], allMemoryIds, "audit_required_hidden";
    }
    if HidesHuman(s, policy) {
      visible, redacted, reason := [], allMemoryIds, "human_review_hidden";
    }
    if |visible| > policy.maxVisibleMemoryIds {
      var preserve := Preserved(rank, visible, policy.maxVisibleMemoryIds);
      var overflow := Filter(visible, id => id !in preserve);
      visible := preserve;
      redacted := UniqueSorted(redacted + overflow);
      reason := if reason == "none" then "max_visible_limit" else reason + "+max_visible_limit";
    }
    view := RedactedView(visible, redacted, reason, true);
  }

  /** Visible and redacted identifiers split the sources, each listed once. */
  ghost predicate Partitions(visible: seq<string>, redacted: seq<string>, sources: seq<string>) {
    && Distinct(visible) && Distinct(redacted)
    && (forall id :: id in sources <==> id in visible || id in redacted)
    && (forall id :: id in visible ==> id !in redacted)
  }

  lemma LexOrder(rank: Ranking)
    requires Injective(rank)
    ensures TotalPreorder((a: string, b: string) => LexLe(rank, a, b))
  {
    forall a: string, b: string ensures LexLe(rank, a, b) || LexLe(rank, b, a) {
      LexTotal(rank, a, b);
    }
    forall a: string, b: string, c: string | LexLe(rank, a, b) && LexLe(rank, b, c) ensures LexLe(rank, a, c) {
      LexTransitive(rank, a, b, c);
    }
  }

  lemma PreservedMembers(rank: Ranking, visible: seq<string>, max: int)
    requires Injective(rank) && Distinct(visible)
    ensures Distinct(Preserved(rank, visible, max))
    ensures forall id :: id in Preserved(rank, visible, max) ==> id in visible
    ensures |Preserved(rank, visible, max)| <= |visible|
  {
    var le := (a: string, b: string) => LexLe(rank, a, b);
    LexOrder(rank);
    SortProperties(visible, le);
    SortMembers(visible, le);
    var sorted := Sort(visible, le);
    DistinctPermutation(visible, sorted);
    var front := Preserved(rank, visible, max);
    assert front <= sorted;
    forall i | 0 <= i < |front| ensures front[i] in visible {
      assert front[i] == sorted[i];
    }
  }

  lemma LimitKeepsPartition(rank: Ranking, view: RedactedView, max: int, sources: seq<string>)
    requires Injective(rank) && Partitions(view.visibleMemoryIds, view.redactedMemoryIds, sources)
    ensures var r := Limited(rank, view, max);
            && Partitions(r.visibleMemoryIds, r.redactedMemoryIds, sources)
            && (max >= 0 ==> |r.visibleMemoryIds| <= max)
            && |r.visibleMemoryIds| <= |view.visibleMemoryIds|
  {
    var preserve := Preserved(rank, view.visibleMemoryIds, max);
    var overflow := Filter(view.visibleMemoryIds, id => id !in preserve);
    PreservedMembers(rank, view.visibleMemoryIds, max);
    FilterMembers(view.visibleMemoryIds, id => id !in preserve);
    UniqueSortedProperties(view.redactedMemoryIds + overflow);
  }

  /** Redaction splits the sources, honours the limit, and hides everything where the mode says so. */
  lemma RedactionPartitions(rank: Ranking, sourceMemoryIds: seq<string>, s: Signal, policy: MachinePolicy)
    requires Injective(rank)
    ensures var r := Redact(rank, sourceMemoryIds, s, policy);
            && Partitions(r.visibleMemoryIds, r.redactedMemoryIds, sourceMemoryIds)
            && (policy.maxVisibleMemoryIds >= 0 ==> |r.visibleMemoryIds| <= policy.maxVisibleMemoryIds)
            && (HidesAudit(s, policy) || HidesHuman(s, policy) ==> r.visibleMemoryIds == [])
  {
    var all := UniqueSorted(sourceMemoryIds);
    UniqueSortedProperties(sourceMemoryIds);
    LimitKeepsPartition(rank, RedactedView([], all, "human_review_hidden", true), policy.maxVisibleMemoryIds,
                        sourceMemoryIds);
    LimitKeepsPartition(rank, RedactedView([], all, "audit_required_hidden", true), policy.maxVisibleMemoryIds,
                        sourceMemoryIds);
    LimitKeepsPartition(rank, RedactedView(all, [], "none", true), policy.maxVisibleMemoryIds, sourceMemoryIds);
  }

  /** How many of n identifiers a limit leaves visible; a negative limit drops that many from the end. */
  function Fits(n: nat, max: int): nat {
    if n <= max then n else if max >= 0 then max else if n + max >= 0 then n + max else 0
  }

  /** What is visible of the distinct sources: nothing if hidden, otherwise as many as the limit leaves, and those
      that rank first. Within the limit nothing is redacted. */
  ghost predicate ShowsFirst(
      rank: Ranking, hidden: bool, max: int, sources: seq<string>, visible: seq<string>, redacted: seq<string>) {
    && (hidden ==> visible == [])
    && (!hidden ==> |visible| == Fits(|sources|, max))
    && (!hidden && |sources| <= max ==> redacted == [] && forall id :: id in sources ==> id in visible)
    && (forall v, r :: v in visible && r in redacted ==> LexLe(rank, v, r))
  }

  lemma PreservedRankFirst(rank: Ranking, visible: seq<string>, max: int)
    requires Injective(rank)
    ensures |visible| > max ==> |Preserved(rank, visible, max)| == Fits(|visible|, max)
    ensures forall v, x :: v in Preserved(rank, visible, max) && x in visible && x !in Preserved(rank, visible, max) ==>
              LexLe(rank, v, x)
  {
    var le := (a: string, b: string) => LexLe(rank, a, b);
    LexOrder(rank);
    SortProperties(visible, le);
    SortMembers(visible, le);
    var sorted, front := Sort(visible, le), Preserved(rank, visible, max);
    assert front <= sorted;
    forall v, x | v in front && x in visible && x !in front ensures LexLe(rank, v, x) {
      var i :| 0 <= i < |front| && front[i] == v;
      var j :| 0 <= j < |sorted| && sorted[j] == x;
      assert forall k :: 0 <= k < |front| ==> sorted[k] in front;
      assert i < |front| <= j && le(sorted[i], sorted[j]);
    }
  }

  lemma LimitShowsFirst(rank: Ranking, view: RedactedView, max: int)
    requires Injective(rank) && (view.visibleMemoryIds == [] || view.redactedMemoryIds == [])
    ensures var r := Limited(rank, view, max);
            && |r.visibleMemoryIds| == Fits(|view.visibleMemoryIds|, max)
            && (|view.visibleMemoryIds| <= max ==> r == view)
            && (forall v, x :: v in r.visibleMemoryIds && x in r.redactedMemoryIds ==> LexLe(rank, v, x))
  {
    var visible := view.visibleMemoryIds;
    if |visible| > max {
      var preserve := Preserved(rank, visible, max);
      var overflow := Filter(visible, id => id !in preserve);
      PreservedRankFirst(rank, visible, max);
      FilterMembers(visible, id => id !in preserve);
      UniqueSortedProperties(view.redactedMemoryIds + overflow);
    }
  }

  /** What redaction shows, from mode, flags and limit alone. */
  lemma RedactionShowsFirst(rank: Ranking, sourceMemoryIds: seq<string>, s: Signal, policy: MachinePolicy)
    requires Injective(rank)
    ensures var r := Redact(rank, sourceMemoryIds, s, policy);
            var hidesAudit := policy.redactionMode in {HideAuditRequired, MinimalLineage} && s.auditRequired;
            var hidesHuman := policy.redactionMode in {HideHumanReview, MinimalLineage} && s.humanReviewRequired;
            && ShowsFirst(rank, hidesAudit || hidesHuman, policy.maxVisibleMemoryIds, UniqueSorted(sourceMemoryIds),
                          r.visibleMemoryIds, r.redactedMemoryIds)
  {
    var all := UniqueSorted(sourceMemoryIds);
    LimitShowsFirst(rank, RedactedView([], all, "human_review_hidden", true), policy.maxVisibleMemoryIds);
    LimitShowsFirst(rank, RedactedView([], all, "audit_required_hidden", true), policy.maxVisibleMemoryIds);
    LimitShowsFirst(rank, RedactedView(all, [], "none", true), policy.maxVisibleMemoryIds);
  }

  /** The reason it gives: human review outranks audit, and what a mode hides exceeds a negative limit only. */
  lemma RedactionReason(rank: Ranking, sourceMemoryIds: seq<string>, s: Signal, policy: MachinePolicy)
    ensures var reason := Redact(rank, sourceMemoryIds, s, policy).reason;
            var limit := policy.maxVisibleMemoryIds;
            if policy.redactionMode in {HideHumanReview, MinimalLineage} && s.humanReviewRequired
            then reason == "human_review_hidden" + if limit < 0 then "+max_visible_limit" else ""
            else if policy.redactionMode in {HideAuditRequired, MinimalLineage} && s.auditRequired
            then reason == "audit_required_hidden" + if limit < 0 then "+max_visible_limit" else ""
            else reason == if |UniqueSorted(sourceMemoryIds)| > limit then "max_visible_limit" else "none"
    ensures Redact(rank, sourceMemoryIds, s, policy).lineagePreserved
  {
    HiddenReasons();
  }

  lemma HiddenReasons()
    ensures "human_review_hidden" != "none" && "audit_required_hidden" != "none"
  {
    assert |"none"| == 4;
  }

  /** The sources as redaction counts them: each once. */
  lemma SourcesCountOnce(sourceMemoryIds: seq<string>)
    ensures Distinct(UniqueSorted(sourceMemoryIds))
    ensures |UniqueSorted(sourceMemoryIds)| == |set id | id in sourceMemoryIds|
  {
    UniqueSortedProperties(sourceMemoryIds);
    DistinctCardinality(UniqueSorted(sourceMemoryIds));
    assert (set id | id in UniqueSorted(sourceMemoryIds)) == (set id | id in sourceMemoryIds);
  }

  // ---------------------------------------------------------------- envelopes

  function BoundaryOf(s: Signal, policy: MachinePolicy, task: TaskType): ActionBoundary {
    ActionBoundary(true, true, policy.allowMachineSuggestedActions, policy.allowMachineContextExpansion, false, false,
                   false,
                   if s.auditRequired then policy.requireHumanApprovalForAuditRequired else s.humanReviewRequired,
                   s.auditRequired || s.humanReviewRequired || task == ValidateGovernanceCandidate)
  }

  predicate Admitted(s: Signal, policy: MachinePolicy) {
    ShouldAllow(s, policy) && InferTask(s.signalType) in policy.allowedTaskTypes
      && InferTask(s.signalType) !in policy.deniedTaskTypes
  }

  /** The envelope of an admitted signal. */
  function EnvelopeOf(digest: Digest, rank: Ranking, s: Signal, now: string, policy: MachinePolicy): Envelope {
    var interfaceType, taskType := ClassifyInterface(s.signalType), InferTask(s.signalType);
    var redaction := Redact(rank, s.sourceMemoryIds, s, policy);
    Envelope(
      BuildId(digest, "mcenv", s.signalId + "::" + InterfaceName(interfaceType) + "::" + TaskName(taskType) + "::"
              + now),
      interfaceType, taskType, [s.signalId], UniqueSorted(s.sourceSynthesisIds), UniqueSorted(s.sourceNutrientIds),
      UniqueSorted(s.sourceMemoryIds), now, policy.minimumSignalConfidence, redaction.redactedMemoryIds,
      redaction.visibleMemoryIds, s.auditRequired, s.humanReviewRequired, true, BoundaryOf(s, policy, taskType))
  }

  function BuildEnvelope(
      digest: Digest, rank: Ranking, s: Signal, now: string, policy: MachinePolicy): Option<Envelope> {
    if Admitted(s, policy) then Some(EnvelopeOf(digest, rank, s, now, policy)) else None
  }

  function EnvelopeKey(e: Envelope): string {
    InterfaceName(e.interfaceType) + "::" + TaskName(e.taskType) + "::" + Join(e.sourceSignalIds, "|")
  }

  /** The boundary of the earlier envelope stays as it was. */
  function MergeEnvelopes(prev: Envelope, e: Envelope): Envelope {
    prev.(sourceSynthesisIds := UniqueSorted(prev.sourceSynthesisIds + e.sourceSynthesisIds),
          sourceNutrientIds := UniqueSorted(prev.sourceNutrientIds + e.sourceNutrientIds),
          sourceMemoryIds := UniqueSorted(prev.sourceMemoryIds + e.sourceMemoryIds),
          visibleMemoryIds := UniqueSorted(prev.visibleMemoryIds + e.visibleMemoryIds),
          redactedMemoryIds := UniqueSorted(prev.redactedMemoryIds + e.redactedMemoryIds),
          auditRequired := prev.auditRequired || e.auditRequired,
          humanReviewRequired := prev.humanReviewRequired || e.humanReviewRequired,
          lineagePreserved := prev.lineagePreserved && e.lineagePreserved)
  }

  function Builder(digest: Digest, rank: Ranking, now: string, policy: MachinePolicy): Signal -> Option<Envelope> {
    (s: Signal) => BuildEnvelope(digest, rank, s, now, policy)
  }

  /** `signals.map(build).filter(v => v !== null)` */
  function Present(signals: seq<Signal>, build: Signal -> Option<Envelope>): seq<Envelope> {
    if signals == [] then []
    else Present(DropLast(signals), build) + match build(Last(signals)) case Some(e) => [e] case None => []
  }

  function Built(
      digest: Digest, rank: Ranking, signals: seq<Signal>, now: string, policy: MachinePolicy): seq<Envelope> {
    Present(signals, Builder(digest, rank, now, policy))
  }

  predicate NeedsTrace(e: Envelope) {
    e.boundary.requiresAuditLog || e.auditRequired
  }

  function ViewOf(e: Envelope): RedactedView {
    RedactedView(e.visibleMemoryIds, e.redactedMemoryIds,
                 if |e.redactedMemoryIds| > 0 then "policy_scoped_redaction" else "none",
                 e.lineagePreserved)
  }

  function PacketOf(digest: Digest, e: Envelope): AuditPacket {
    AuditPacket(BuildId(digest, "auditpkt", e.envelopeId + "::" + Join(e.sourceSignalIds, "|")), e.envelopeId,
                e.sourceSignalIds,
                e.createdAt, e.auditRequired, e.humanReviewRequired, e.lineagePreserved)
  }

  function Expose(digest: Digest, envelopes: seq<Envelope>): Interfaces {
    Interfaces(envelopes, Map(envelopes, ViewOf), Map(Filter(envelopes, NeedsTrace), e => PacketOf(digest, e)))
  }

  function BuildInterfaces(
      digest: Digest, rank: Ranking, signals: seq<Signal>, now: string, policy: MachinePolicy): Interfaces {
    Expose(digest, Consolidated(Built(digest, rank, signals, now, policy), EnvelopeKey, MergeEnvelopes))
  }

  method BuildMachineCognitionInterfaces(
      digest: Digest, rank: Ranking, signals: seq<Signal>, now: string, policy: MachinePolicy)
    returns (r: Interfaces)
    ensures r == BuildInterfaces(digest, rank, signals, now, policy)
  {
    var built: seq<Envelope> := [];
    for i := 0 to |signals|
      invariant built == Built(digest, rank, signals[..i], now, policy)
    {
      assert DropLast(signals[..i + 1]) == signals[..i];
      match BuildEnvelope(digest, rank, signals[i], now, policy)
      case Some(e) => built := built + [e];
      case None =>
    }
    assert signals[..|signals|] == signals;
    var envelopes := ConsolidateDuplicates(built, EnvelopeKey, MergeEnvelopes);
    r := Expose(digest, envelopes);
  }

  /** Whatever it merges, an envelope that is audit-required or asks for a log leaves an audit trace packet, and
      only those do. */
  lemma TraceIff(digest: Digest, envelopes: seq<Envelope>, e: Envelope)
    requires e in envelopes
    ensures NeedsTrace(e) ==> PacketOf(digest, e) in Expose(digest, envelopes).auditTracePackets
    ensures forall p :: p in Expose(digest, envelopes).auditTracePackets ==>
              exists x :: x in envelopes && NeedsTrace(x) && p == PacketOf(digest, x)
  {
    var traced := Filter(envelopes, NeedsTrace);
    var packets := Expose(digest, envelopes).auditTracePackets;
    FilterMembers(envelopes, NeedsTrace);
    if NeedsTrace(e) {
      var i :| 0 <= i < |traced| && traced[i] == e;
      assert packets[i] == PacketOf(digest, e);
    }
    forall p | p in packets ensures exists x :: x in envelopes && NeedsTrace(x) && p == PacketOf(digest, x) {
      var i :| 0 <= i < |packets| && packets[i] == p;
      assert traced[i] in traced;
    }
  }

  /** Merged envelopes keep every flag. */
  lemma {:induction false} FoldEnvelopeFlags(group: seq<Envelope>)
    requires group != []
    ensures Fold(group, MergeEnvelopes).auditRequired <==> exists x :: x in group && x.auditRequired
    ensures Fold(group, MergeEnvelopes).humanReviewRequired <==> exists x :: x in group && x.humanReviewRequired
  {
    if |group| > 1 {
      FoldEnvelopeFlags(DropLast(group));
      assert group == DropLast(group) + [Last(group)];
    } else {
      assert group == [group[0]];
    }
  }

  /** And all lineage. */
  lemma {:induction false} FoldEnvelopeLineage(group: seq<Envelope>, id: string)
    requires group != []
    ensures id in Fold(group, MergeEnvelopes).sourceMemoryIds <==> exists x :: x in group && id in x.sourceMemoryIds
  {
    if |group| > 1 {
      var front, last := DropLast(group), Last(group);
      FoldEnvelopeLineage(front, id);
      assert group == front + [last];
      UnionMembers(Fold(front, MergeEnvelopes).sourceMemoryIds, last.sourceMemoryIds);
    } else {
      assert group == [group[0]];
    }
  }

  /** The other lists unite likewise, and the rest, the boundary included, stays that of the first. */
  lemma {:induction false} FoldEnvelopeRest(group: seq<Envelope>, id: string)
    requires group != []
    ensures var e := Fold(group, MergeEnvelopes);
            && (id in e.sourceSynthesisIds <==> exists x :: x in group && id in x.sourceSynthesisIds)
            && (id in e.sourceNutrientIds <==> exists x :: x in group && id in x.sourceNutrientIds)
            && (id in e.visibleMemoryIds <==> exists x :: x in group && id in x.visibleMemoryIds)
            && (id in e.redactedMemoryIds <==> exists x :: x in group && id in x.redactedMemoryIds)
            && (e.lineagePreserved <==> forall x :: x in group ==> x.lineagePreserved)
            && e.envelopeId == group[0].envelopeId && e.interfaceType == group[0].interfaceType
            && e.taskType == group[0].taskType && e.sourceSignalIds == group[0].sourceSignalIds
            && e.createdAt == group[0].createdAt && e.confidenceFloor == group[0].confidenceFloor
            && e.boundary == group[0].boundary
  {
    if |group| > 1 {
      var front, last := DropLast(group), Last(group);
      var prev := Fold(front, MergeEnvelopes);
      FoldEnvelopeRest(front, id);
      assert group == front + [last];
      UnionMembers(prev.sourceSynthesisIds, last.sourceSynthesisIds);
      UnionMembers(prev.sourceNutrientIds, last.sourceNutrientIds);
      UnionMembers(prev.visibleMemoryIds, last.visibleMemoryIds);
      UnionMembers(prev.redactedMemoryIds, last.redactedMemoryIds);
    } else {
      assert group == [group[0]];
    }
  }

  ghost predicate Split(e: Envelope) {
    Partitions(e.visibleMemoryIds, e.redactedMemoryIds, e.sourceMemoryIds)
  }

  lemma UnionMembers(a: seq<string>, b: seq<string>)
    ensures Distinct(UniqueSorted(a + b))
    ensures forall id :: id in UniqueSorted(a + b) <==> id in a || id in b
  {
    UniqueSortedProperties(a + b);
  }

  ghost predicate Shows(e: Envelope, id: string) { id in e.visibleMemoryIds }

  ghost predicate Hides(e: Envelope, id: string) { id in e.redactedMemoryIds }

  /** A merge keeps the split exactly when neither envelope shows what the other hides; the code does not check it. */
  lemma MergeKeepsSplitIff(prev: Envelope, e: Envelope)
    requires Split(prev) && Split(e)
    ensures Split(MergeEnvelopes(prev, e)) <==>
            forall id :: !(Shows(prev, id) && Hides(e, id)) && !(Shows(e, id) && Hides(prev, id))
  {
    UnionMembers(prev.sourceMemoryIds, e.sourceMemoryIds);
    UnionMembers(prev.visibleMemoryIds, e.visibleMemoryIds);
    UnionMembers(prev.redactedMemoryIds, e.redactedMemoryIds);
    var m := MergeEnvelopes(prev, e);
    forall id ensures Shows(m, id) <==> Shows(prev, id) || Shows(e, id) {}
    forall id ensures Hides(m, id) <==> Hides(prev, id) || Hides(e, id) {}
    assert forall id :: id in m.sourceMemoryIds <==> Shows(m, id) || Hides(m, id);
    assert forall id :: Shows(prev, id) ==> !Hides(prev, id);
    assert forall id :: Shows(e, id) ==> !Hides(e, id);
    assert Split(m) <==> forall id :: Shows(m, id) ==> !Hides(m, id);
  }

  // ---------------------------------------------------------------- distinct signals

  ghost predicate HasSignalId(digest: Digest, s: Signal) {
    exists m :: s.signalId == BuildId(digest, "signal", m)
  }

  ghost predicate DistinctSignalIds(digest: Digest, signals: seq<Signal>) {
    && (forall s :: s in signals ==> HasSignalId(digest, s))
    && (forall i, j :: 0 <= i < j < |signals| ==> signals[i].signalId != signals[j].signalId)
  }

  ghost predicate MadeFrom(digest: Digest, rank: Ranking, e: Envelope, s: Signal, now: string, policy: MachinePolicy) {
    Admitted(s, policy) && e == EnvelopeOf(digest, rank, s, now, policy)
  }

  lemma {:induction false} PresentMembers(signals: seq<Signal>, build: Signal -> Option<Envelope>)
    ensures forall e :: e in Present(signals, build) ==> exists s :: s in signals && build(s) == Some(e)
  {
    if signals != [] {
      PresentMembers(DropLast(signals), build);
      assert signals == DropLast(signals) + [Last(signals)];
    }
  }

  lemma BuiltFromSignals(
      digest: Digest, rank: Ranking, signals: seq<Signal>, now: string, policy: MachinePolicy, e: Envelope)
    returns (s: Signal)
    requires e in Built(digest, rank, signals, now, policy)
    ensures s in signals && MadeFrom(digest, rank, e, s, now, policy)
  {
    var build := Builder(digest, rank, now, policy);
    PresentMembers(signals, build);
    s :| s in signals && build(s) == Some(e);
  }

  lemma EnvelopeKeyTellsSignal(digest: Digest, rank: Ranking, s: Signal, z: Signal, now: string, policy: MachinePolicy)
    requires SoundDigest(digest) && HasSignalId(digest, s) && HasSignalId(digest, z)
    requires EnvelopeKey(EnvelopeOf(digest, rank, s, now, policy))
             == EnvelopeKey(EnvelopeOf(digest, rank, z, now, policy))
    ensures s.signalId == z.signalId
  {
    var m :| s.signalId == BuildId(digest, "signal", m);
    var o :| z.signalId == BuildId(digest, "signal", o);
    SameEnding(digest,
               InterfaceName(ClassifyInterface(s.signalType)) + "::" + TaskName(InferTask(s.signalType)) + "::", m,
               InterfaceName(ClassifyInterface(z.signalType)) + "::" + TaskName(InferTask(z.signalType)) + "::", o);
  }

  lemma SameEnding(digest: Digest, a: string, m: string, b: string, o: string)
    requires SoundDigest(digest)
    requires a + Join([BuildId(digest, "signal", m)], "|") == b + Join([BuildId(digest, "signal", o)], "|")
    ensures m == o
  {
    var x, y := BuildId(digest, "signal", m), BuildId(digest, "signal", o);
    assert Join([x], "|") == x + JoinTail([], "|") == x && Join([y], "|") == y + JoinTail([], "|") == y;
    assert a + x == BuildId(digest, a + "signal", m) && b + y == BuildId(digest, b + "signal", o);
    BuildIdInjective(digest, a + "signal", m, b + "signal", o);
  }

  lemma {:induction false} PresentKeysDistinct(signals: seq<Signal>, build: Signal -> Option<Envelope>)
    requires forall i, j :: 0 <= i < j < |signals| && build(signals[i]).Some? && build(signals[j]).Some?
                            ==> EnvelopeKey(build(signals[i]).value) != EnvelopeKey(build(signals[j]).value)
    ensures Distinct(Map(Present(signals, build), EnvelopeKey))
  {
    if signals != [] {
      var front, last := DropLast(signals), Last(signals);
      PresentKeysDistinct(front, build);
      PresentMembers(front, build);
      var before := Present(front, build);
      if build(last).Some? {
        var e := build(last).value;
        forall i | 0 <= i < |before| ensures EnvelopeKey(before[i]) != EnvelopeKey(e) {
          assert before[i] in before;
          var s :| s in front && build(s) == Some(before[i]);
          var k :| 0 <= k < |front| && front[k] == s;
          assert signals[k] == s && signals[|signals| - 1] == last;
        }
        assert Map(before + [e], EnvelopeKey) == Map(before, EnvelopeKey) + [EnvelopeKey(e)];
      }
    }
  }

  lemma BuiltKeysDistinct(digest: Digest, rank: Ranking, signals: seq<Signal>, now: string, policy: MachinePolicy)
    requires SoundDigest(digest) && DistinctSignalIds(digest, signals)
    ensures Distinct(Map(Built(digest, rank, signals, now, policy), EnvelopeKey))
  {
    var build := Builder(digest, rank, now, policy);
    forall i, j | 0 <= i < j < |signals| && build(signals[i]).Some? && build(signals[j]).Some?
      ensures EnvelopeKey(build(signals[i]).value) != EnvelopeKey(build(signals[j]).value)
    {
      assert signals[i] in signals && signals[j] in signals;
      if EnvelopeKey(build(signals[i]).value) == EnvelopeKey(build(signals[j]).value) {
        EnvelopeKeyTellsSignal(digest, rank, signals[i], signals[j], now, policy);
      }
    }
    PresentKeysDistinct(signals, build);
  }

  /** For signals with distinct identifiers no two envelopes merge. */
  lemma EnvelopesFollowSignals(digest: Digest, rank: Ranking, signals: seq<Signal>, now: string, policy: MachinePolicy)
    requires SoundDigest(digest) && DistinctSignalIds(digest, signals)
    ensures BuildInterfaces(digest, rank, signals, now, policy)
            == Expose(digest, Built(digest, rank, signals, now, policy))
  {
    BuiltKeysDistinct(digest, rank, signals, now, policy);
    ConsolidateDistinct(Built(digest, rank, signals, now, policy), EnvelopeKey, MergeEnvelopes);
  }

  // ---------------------------------------------------------------- who gets an envelope, and what it says

  predicate TaskAllowed(policy: MachinePolicy, task: TaskType) {
    task in policy.allowedTaskTypes && task !in policy.deniedTaskTypes
  }

  /** Confident enough, with flags the policy allows, of one of three types, and for an allowed task. */
  predicate LetIn(policy: MachinePolicy, s: Signal) {
    && s.confidenceScore >= policy.minimumSignalConfidence
    && (s.auditRequired ==> policy.allowAuditRequiredContext)
    && (s.humanReviewRequired ==> policy.allowHumanReviewContext)
    && match s.signalType
       case AiContextReady => TaskAllowed(policy, SummarizeGovernedContext)
       case HumanReviewRequired => TaskAllowed(policy, PrepareHumanReview)
       case GovernanceContradiction => TaskAllowed(policy, ReviewContradiction)
       case _ => false
  }

  function IsLetIn(policy: MachinePolicy): Signal -> bool {
    (s: Signal) => LetIn(policy, s)
  }

  /** The envelope says of its signal what a machine needs to know, and bounds what the machine may do. */
  predicate Describes(e: Envelope, s: Signal, now: string, policy: MachinePolicy) {
    && e.sourceSignalIds == [s.signalId] && e.createdAt == now && e.confidenceFloor == policy.minimumSignalConfidence
    && e.sourceSynthesisIds == UniqueSorted(s.sourceSynthesisIds)
    && e.sourceNutrientIds == UniqueSorted(s.sourceNutrientIds)
    && e.sourceMemoryIds == UniqueSorted(s.sourceMemoryIds)
    && e.auditRequired == s.auditRequired && e.humanReviewRequired == s.humanReviewRequired && e.lineagePreserved
    && (s.signalType == HumanReviewRequired ==>
        e.interfaceType == HumanEscalationPacket && e.taskType == PrepareHumanReview)
    && (s.signalType == GovernanceContradiction ==>
          e.interfaceType == GovernanceReviewPacket && e.taskType == ReviewContradiction)
    && (s.signalType == AiContextReady ==> e.interfaceType == ContextEnvelope && e.taskType == SummarizeGovernedContext)
    && BoundedBy(e.boundary, s, policy)
  }

  /** Machines may read and summarise, suggest and ask for more as the policy says, and never change memory; output
      needs a human as the policy says if it is audit-required, and as the signal says if not. */
  predicate BoundedBy(b: ActionBoundary, s: Signal, policy: MachinePolicy) {
    && b.mayReadContext && b.mayGenerateSummary
    && b.maySuggestActions == policy.allowMachineSuggestedActions
    && b.mayRequestMoreContext == policy.allowMachineContextExpansion
    && !b.mayModifyMemory && !b.mayDeleteMemory && !b.mayPromoteGovernanceMemory
    && (s.auditRequired ==> b.requiresHumanApprovalForOutput == policy.requireHumanApprovalForAuditRequired)
    && (!s.auditRequired ==> b.requiresHumanApprovalForOutput == s.humanReviewRequired)
    && (b.requiresAuditLog <==> s.auditRequired || s.humanReviewRequired)
  }

  lemma AdmittedIffLetIn(s: Signal, policy: MachinePolicy)
    ensures Admitted(s, policy) <==> LetIn(policy, s)
  {
  }

  lemma EnvelopeDescribes(digest: Digest, rank: Ranking, s: Signal, now: string, policy: MachinePolicy)
    requires LetIn(policy, s)
    ensures Describes(EnvelopeOf(digest, rank, s, now, policy), s, now, policy)
  {
  }

  lemma {:induction false} PresentFollowsFilter(
      signals: seq<Signal>, build: Signal -> Option<Envelope>, ok: Signal -> bool)
    requires forall s :: ok(s) <==> build(s).Some?
    ensures |Present(signals, build)| == |Filter(signals, ok)|
    ensures forall i :: 0 <= i < |Filter(signals, ok)| ==>
            build(Filter(signals, ok)[i]) == Some(Present(signals, build)[i])
  {
    if signals != [] {
      PresentFollowsFilter(DropLast(signals), build, ok);
    }
  }

  /** For signals with distinct identifiers there is one envelope per signal that is let in, in their order, and it
      describes that signal. */
  lemma OneEnvelopePerSignal(digest: Digest, rank: Ranking, signals: seq<Signal>, now: string, policy: MachinePolicy)
    requires SoundDigest(digest) && DistinctSignalIds(digest, signals)
    ensures var admitted := Filter(signals, IsLetIn(policy));
            var envelopes := BuildInterfaces(digest, rank, signals, now, policy).envelopes;
            && |envelopes| == |admitted|
            && forall i :: 0 <= i < |admitted| ==>
                 LetIn(policy, admitted[i]) && Describes(envelopes[i], admitted[i], now, policy)
  {
    var build, ok := Builder(digest, rank, now, policy), IsLetIn(policy);
    EnvelopesFollowSignals(digest, rank, signals, now, policy);
    forall s ensures ok(s) <==> build(s).Some? { AdmittedIffLetIn(s, policy); }
    PresentFollowsFilter(signals, build, ok);
    FilterMembers(signals, ok);
    var admitted := Filter(signals, ok);
    forall i | 0 <= i < |admitted|
      ensures LetIn(policy, admitted[i]) && Describes(Present(signals, build)[i], admitted[i], now, policy)
    {
      assert admitted[i] in admitted;
      EnvelopeDescribes(digest, rank, admitted[i], now, policy);
    }
  }

  /** Views and packets repeat their envelopes: one view each, one packet each that needs a trace, in order. */
  lemma ExposedFaithfully(digest: Digest, envelopes: seq<Envelope>)
    ensures var r := Expose(digest, envelopes);
            var traced := Filter(envelopes, NeedsTrace);
            && r.envelopes == envelopes && |r.redactedViews| == |envelopes| && |r.auditTracePackets| == |traced|
            && (forall i :: 0 <= i < |envelopes| ==>
                  && r.redactedViews[i].visibleMemoryIds == envelopes[i].visibleMemoryIds
                  && r.redactedViews[i].redactedMemoryIds == envelopes[i].redactedMemoryIds
                  && r.redactedViews[i].lineagePreserved == envelopes[i].lineagePreserved
                  && (r.redactedViews[i].reason == "none" <==> envelopes[i].redactedMemoryIds == []))
            && (forall i :: 0 <= i < |traced| ==>
                  && r.auditTracePackets[i].envelopeId == traced[i].envelopeId
                  && r.auditTracePackets[i].sourceSignalIds == traced[i].sourceSignalIds
                  && r.auditTracePackets[i].createdAt == traced[i].createdAt
                  && r.auditTracePackets[i].auditRequired == traced[i].auditRequired
                  && r.auditTracePackets[i].humanReviewRequired == traced[i].humanReviewRequired
                  && r.auditTracePackets[i].lineagePreserved == traced[i].lineagePreserved)
  {
    assert "policy_scoped_redaction"[0] == 'p' && "none"[0] == 'n';
  }
}
