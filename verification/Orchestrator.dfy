/** The event-sourced relationship runtime of runtime/distributed/orchestrator.ts: an append-only event
    log, a snapshot map maintained incrementally, and reconstruction of any state from the log. */
module Orchestrator {
  import opened Wrappers
  import opened Sequences
  import opened StableSorting

  datatype Lifecycle = Proposed | Active | Paused | RevokedRelationship | ExpiredRelationship
  datatype Health = Stable | Degraded | Critical
  datatype Exposure = NoExposure | Limited | Extended

  /** One constructor for each event type the reducer distinguishes; `OtherKind` is its default case. */
  datatype EventKind =
    | Created
    | LifecycleChanged(lifecycle: Lifecycle)
    | TrustChanged(delta: real)
    | CapabilityDelegated(capability: string)
    | CapabilityRevoked(capability: string)
    | ExecutionAttested
    | OtherKind(name: string)

  /** The (tenant, relationship) pair that owns an event. */
  datatype Pair = Pair(tenantId: string, relationshipId: string)

  datatype Event = Event(eventId: string, pair: Pair, kind: EventKind, ts: string, sequence: int)

  datatype State = State(
    pair: Pair,
    trustScore: real,
    lifecycle: Lifecycle,
    capabilities: seq<string>,
    health: Health,
    revocationReadiness: int,
    exposure: Exposure,
    resilienceScore: real,
    lastEventSequence: int)

  datatype Snapshot = Snapshot(pair: Pair, asOfSequence: int, capturedAt: string, state: State)

  datatype TelemetryWindow = TelemetryWindow(
    tenantId: string, fromSequence: int, toSequence: int, events: seq<Event>)

  function DefaultState(pair: Pair): State {
    State(pair, 50.0, Proposed, [], Stable, 0, NoExposure, 50.0, 0)
  }

  function Clamp(x: real): real {
    if x < 0.0 then 0.0 else if x > 100.0 then 100.0 else x
  }

  function HealthOf(score: real): Health {
    if score < 30.0 then Critical else if score < 60.0 then Degraded else Stable
  }

  function Reduce(state: State, event: Event): State {
    var next := state.(lastEventSequence := event.sequence);
    match event.kind
    case Created => next.(lifecycle := Active)
    case LifecycleChanged(lifecycle) => next.(lifecycle := lifecycle)
    case TrustChanged(delta) =>
      var trustScore := Clamp(state.trustScore + delta);
      next.(trustScore := trustScore,
            health := HealthOf(trustScore),
            resilienceScore := Clamp(state.resilienceScore + (delta / 2.0).Floor as real))
    case CapabilityDelegated(capability) =>
      next.(capabilities := Dedupe(state.capabilities + [capability]), exposure := Limited)
    case CapabilityRevoked(capability) =>
      next.(capabilities := Filter(state.capabilities, c => c != capability),
            revocationReadiness := if state.revocationReadiness + 20 > 100 then 100 else state.revocationReadiness + 20)
    case ExecutionAttested => next.(exposure := Extended)
    case OtherKind(_) => next
  }

  function Fold(state: State, events: seq<Event>): State {
    if events == [] then state else Reduce(Fold(state, DropLast(events)), Last(events))
  }

  /** The string that indexes the snapshot map. */
  function Key(pair: Pair): string {
    pair.tenantId + "::" + pair.relationshipId
  }

  predicate BySequence(a: Event, b: Event) {
    a.sequence <= b.sequence
  }

  predicate UpTo(event: Event, toSequence: Option<int>) {
    toSequence.Some? ==> event.sequence <= toSequence.value
  }

  function Selected(log: seq<Event>, pair: Pair, toSequence: Option<int>): seq<Event> {
    Filter(Filter(log, (e: Event) => e.pair == pair), (e: Event) => UpTo(e, toSequence))
  }

  function Reconstruction(log: seq<Event>, pair: Pair, toSequence: Option<int>): State {
    Fold(DefaultState(pair), Sort(Selected(log, pair, toSequence), BySequence))
  }

  function InWindow(tenantId: string, fromSequence: int, toSequence: int): Event -> bool {
    (e: Event) => e.pair.tenantId == tenantId && fromSequence <= e.sequence <= toSequence
  }

  function Window(log: seq<Event>, tenantId: string, fromSequence: int, toSequence: int): seq<Event> {
    Filter(log, InWindow(tenantId, fromSequence, toSequence))
  }

  function AppendSnapshot(snapshots: map<string, Snapshot>, event: Event): map<string, Snapshot> {
    var key := Key(event.pair);
    var current := if key in snapshots then snapshots[key].state else DefaultState(event.pair);
    snapshots[key := Snapshot(event.pair, event.sequence, event.ts, Reduce(current, event))]
  }

  /** The snapshot map after appending the events of `log` one by one. */
  function Snapshots(log: seq<Event>): map<string, Snapshot> {
    if log == [] then map[] else AppendSnapshot(Snapshots(DropLast(log)), Last(log))
  }

  class DistributedRuntimeOrchestrator {
    var eventLog: seq<Event>
    var snapshots: map<string, Snapshot>

    ghost predicate Valid()
      reads this
    {
      snapshots == Snapshots(eventLog)
    }

    constructor ()
      ensures Valid() && eventLog == []
    {
      eventLog := [];
      snapshots := map[];
    }

    method Append(event: Event)
      requires Valid()
      modifies this
      ensures Valid()
      ensures eventLog == old(eventLog) + [event]
      ensures snapshots.Keys == old(snapshots).Keys + {Key(event.pair)}
      ensures forall k :: k in old(snapshots) && k != Key(event.pair) ==> snapshots[k] == old(snapshots)[k]
      ensures var snapshot := snapshots[Key(event.pair)];
              snapshot.pair == event.pair && snapshot.asOfSequence == event.sequence && snapshot.capturedAt == event.ts
    {
      eventLog := eventLog + [event];
      var key := Key(event.pair);
      var current := if key in snapshots then snapshots[key].state else DefaultState(event.pair);
      var next := Reduce(current, event);
      snapshots := snapshots[key := Snapshot(event.pair, event.sequence, event.ts, next)];
      assert DropLast(eventLog) == old(eventLog);
    }

    method Reconstruct(pair: Pair, toSequence: Option<int>) returns (state: State)
      requires Valid()
      ensures state == Reconstruction(eventLog, pair, toSequence)
    {
      var events := Sort(Selected(eventLog, pair, toSequence), BySequence);
      state := DefaultState(pair);
      for i := 0 to |events|
        invariant state == Fold(DefaultState(pair), events[..i])
      {
        assert DropLast(events[..i + 1]) == events[..i];
        state := Reduce(state, events[i]);
      }
      assert events[..|events|] == events;
    }

    method ReplayWindow(tenantId: string, fromSequence: int, toSequence: int) returns (window: TelemetryWindow)
      requires Valid()
      ensures window.tenantId == tenantId && window.fromSequence == fromSequence && window.toSequence == toSequence
      ensures forall e :: e in window.events <==>
                e in eventLog && e.pair.tenantId == tenantId && fromSequence <= e.sequence <= toSequence
      ensures IsSelection(window.events, eventLog, InWindow(tenantId, fromSequence, toSequence))
      ensures window.events == Window(eventLog, tenantId, fromSequence, toSequence)
    {
      var keep := InWindow(tenantId, fromSequence, toSequence);
      FilterMembers(eventLog, keep);
      FilterIsSelection(eventLog, keep);
      window := TelemetryWindow(tenantId, fromSequence, toSequence, Filter(eventLog, keep));
    }
  }

  // ---------------------------------------------------------------- the snapshot key

  predicate HasDoubleColon(s: string) {
    exists i :: 0 <= i < |s| - 1 && s[i] == ':' && s[i + 1] == ':'
  }

  /** Tenant ids that leave the separator recognisable. */
  predicate KeySafe(tenantId: string) {
    !HasDoubleColon(tenantId) && (tenantId != "" ==> Last(tenantId) != ':')
  }

  lemma KeyInjective(p: Pair, q: Pair)
    requires KeySafe(p.tenantId) && KeySafe(q.tenantId)
    requires Key(p) == Key(q)
    ensures p == q
  {
    if |p.tenantId| < |q.tenantId| {
      SeparatorEarly(p, q);
    } else if |q.tenantId| < |p.tenantId| {
      SeparatorEarly(q, p);
    } else {
      assert Key(p)[..|p.tenantId|] == p.tenantId && Key(q)[..|q.tenantId|] == q.tenantId;
      assert Key(p)[|p.tenantId| + 2..] == p.relationshipId;
      assert Key(q)[|q.tenantId| + 2..] == q.relationshipId;
    }
  }

  lemma SeparatorEarly(p: Pair, q: Pair)
    requires |p.tenantId| < |q.tenantId| && Key(p) == Key(q)
    ensures !KeySafe(q.tenantId)
  {
    var i := |p.tenantId|;
    assert Key(p)[i] == ':' && Key(p)[i + 1] == ':';
    assert q.tenantId[i] == Key(q)[i];
    if i + 1 < |q.tenantId| {
      assert q.tenantId[i + 1] == Key(q)[i + 1];
    }
  }

  /** Two pairs of ids, none containing a double colon, that share a key. */
  lemma KeyCollision()
    ensures exists p: Pair, q: Pair :: p != q && Key(p) == Key(q)
              && !HasDoubleColon(p.tenantId) && !HasDoubleColon(p.relationshipId)
              && !HasDoubleColon(q.tenantId) && !HasDoubleColon(q.relationshipId)
  {
    var p, q := Pair("a:", "b"), Pair("a", ":b");
    assert Key(p) == "a:::b" == Key(q);
    assert p != q;
  }

  /** A tenant id outside `KeySafe` shares a key with another tenant, whatever the relationship id. */
  lemma UnsafeTenantCollides(tenantId: string, relationshipId: string) returns (other: Pair)
    requires !KeySafe(tenantId)
    ensures other.tenantId != tenantId && Key(other) == Key(Pair(tenantId, relationshipId))
  {
    if HasDoubleColon(tenantId) {
      var i :| 0 <= i < |tenantId| - 1 && tenantId[i] == ':' && tenantId[i + 1] == ':';
      other := Pair(tenantId[..i], tenantId[i + 2..] + "::" + relationshipId);
      assert tenantId == tenantId[..i] + "::" + tenantId[i + 2..];
    } else {
      other := Pair(DropLast(tenantId), ":" + relationshipId);
      assert tenantId == DropLast(tenantId) + ":";
      assert Key(other) == DropLast(tenantId) + ":" + "::" + relationshipId;
    }
  }

  // ---------------------------------------------------------------- snapshots against reconstruction

  predicate HasEvents(log: seq<Event>, pair: Pair) {
    exists e :: e in log && e.pair == pair
  }

  /** Every pair with events has a snapshot of its own, holding the state that reconstruction yields. */
  ghost predicate Coherent(log: seq<Event>) {
    forall pair :: HasEvents(log, pair) ==>
      && Key(pair) in Snapshots(log)
      && Snapshots(log)[Key(pair)].pair == pair
      && Snapshots(log)[Key(pair)].state == Reconstruction(log, pair, None)
  }

  /** What callers must respect: sequences never decrease within a pair, and no two pairs share a key. */
  ghost predicate Disciplined(log: seq<Event>) {
    && (forall i, j :: 0 <= i < j < |log| && log[i].pair == log[j].pair ==> log[i].sequence <= log[j].sequence)
    && (forall i, j :: 0 <= i < |log| && 0 <= j < |log| && Key(log[i].pair) == Key(log[j].pair) ==>
          log[i].pair == log[j].pair)
  }

  lemma {:induction false} SelectedAppend(log: seq<Event>, e: Event, pair: Pair)
    ensures Selected(log + [e], pair, None) == Selected(log, pair, None) + if e.pair == pair then [e] else []
  {
    FilterAppend(log, e, (x: Event) => x.pair == pair);
    if e.pair == pair {
      FilterAppend(Filter(log, (x: Event) => x.pair == pair), e, (x: Event) => UpTo(x, None));
    } else {
      assert Filter(log + [e], (x: Event) => x.pair == pair) == Filter(log, (x: Event) => x.pair == pair);
    }
  }

  lemma {:induction false} SelectedMembers(log: seq<Event>, pair: Pair, toSequence: Option<int>)
    ensures forall e :: e in Selected(log, pair, toSequence) <==> e in log && e.pair == pair && UpTo(e, toSequence)
  {
    FilterMembers(log, (e: Event) => e.pair == pair);
    FilterMembers(Filter(log, (e: Event) => e.pair == pair), (e: Event) => UpTo(e, toSequence));
  }

  /** Appending an event that is not older than its pair's events extends the sorted selection. */
  lemma ReconstructionAppend(log: seq<Event>, e: Event, pair: Pair)
    requires forall x :: x in log && x.pair == e.pair ==> x.sequence <= e.sequence
    ensures Reconstruction(log + [e], pair, None) ==
            if pair == e.pair then Reduce(Reconstruction(log, pair, None), e) else Reconstruction(log, pair, None)
  {
    SelectedAppend(log, e, pair);
    var sorted := Sort(Selected(log, pair, None), BySequence);
    if pair == e.pair {
      SortAppend(Selected(log, pair, None), e, BySequence);
      SelectedMembers(log, pair, None);
      SortMembers(Selected(log, pair, None), BySequence);
      if sorted != [] {
        assert Last(sorted) in sorted;
      }
      assert Sort(Selected(log + [e], pair, None), BySequence) == sorted + [e];
      assert DropLast(sorted + [e]) == sorted;
    } else {
      assert Selected(log + [e], pair, None) == Selected(log, pair, None);
    }
  }

  lemma ReconstructionEmpty(log: seq<Event>, pair: Pair)
    requires !HasEvents(log, pair)
    ensures Reconstruction(log, pair, None) == DefaultState(pair)
  {
    FilterNone(log, (e: Event) => e.pair == pair);
  }

  lemma {:induction false} KeysHaveEvents(log: seq<Event>)
    ensures forall k :: k in Snapshots(log) ==> exists e :: e in log && Key(e.pair) == k
  {
    if log != [] {
      KeysHaveEvents(DropLast(log));
      assert log == DropLast(log) + [Last(log)];
      forall k | k in Snapshots(log) ensures exists e :: e in log && Key(e.pair) == k {
        if k == Key(Last(log).pair) {
          assert Last(log) in log;
        } else {
          assert k in Snapshots(DropLast(log));
          var e :| e in DropLast(log) && Key(e.pair) == k;
          assert e in log;
        }
      }
    }
  }

  /** The cache refines the simple form: after a disciplined run every snapshot is the reconstruction. */
  lemma {:induction false} DisciplinedRunsAreCoherent(log: seq<Event>)
    requires Disciplined(log)
    ensures Coherent(log)
  {
    if log != [] {
      var front, e := DropLast(log), Last(log);
      assert log == front + [e];
      assert Disciplined(front);
      DisciplinedRunsAreCoherent(front);
      forall x | x in front && x.pair == e.pair ensures x.sequence <= e.sequence {}
      forall pair | HasEvents(log, pair)
        ensures Key(pair) in Snapshots(log)
        ensures Snapshots(log)[Key(pair)].pair == pair
        ensures Snapshots(log)[Key(pair)].state == Reconstruction(log, pair, None)
      {
        ReconstructionAppend(front, e, pair);
        if pair == e.pair {
          if HasEvents(front, pair) {
          } else {
            ReconstructionEmpty(front, pair);
            KeysHaveEvents(front);
            assert Key(pair) !in Snapshots(front);
          }
        } else {
          assert HasEvents(front, pair);
          var x :| x in log && x.pair == pair;
          assert Key(pair) != Key(e.pair);
        }
      }
    }
  }

  lemma FoldPair(state: State, events: seq<Event>)
    ensures Fold(state, events).pair == state.pair
    ensures events != [] ==> Fold(state, events).lastEventSequence == Last(events).sequence
  {
  }

  lemma {:induction false} SnapshotLastSequence(log: seq<Event>)
    requires log != []
    ensures Key(Last(log).pair) in Snapshots(log)
    ensures Snapshots(log)[Key(Last(log).pair)].state.lastEventSequence == Last(log).sequence
  {
  }

  /** If the newest event is older than an earlier one of its pair, its snapshot is wrong. */
  lemma LateEventBreaksCoherence(log: seq<Event>, i: nat)
    requires i < |log| - 1
    requires log[i].pair == Last(log).pair && log[i].sequence > Last(log).sequence
    ensures !Coherent(log)
  {
    var e := Last(log);
    var sorted := Sort(Selected(log, e.pair, None), BySequence);
    SelectedMembers(log, e.pair, None);
    SortMembers(Selected(log, e.pair, None), BySequence);
    SortProperties(Selected(log, e.pair, None), BySequence);
    assert e in log && log[i] in log;
    assert log[i] in sorted;
    FoldPair(DefaultState(e.pair), sorted);
    assert Last(sorted).sequence >= log[i].sequence;
    SnapshotLastSequence(log);
    assert HasEvents(log, e.pair);
  }

  lemma CoherentKeysDistinct(log: seq<Event>, i: nat, j: nat)
    requires Coherent(log) && i < |log| && j < |log|
    requires Key(log[i].pair) == Key(log[j].pair)
    ensures log[i].pair == log[j].pair
  {
    assert HasEvents(log, log[i].pair) && HasEvents(log, log[j].pair);
  }

  /** Exactly when the incremental snapshots can be trusted at every point of a run. */
  lemma CoherentIffDisciplined(log: seq<Event>)
    ensures (forall n :: 0 <= n <= |log| ==> Coherent(log[..n])) <==> Disciplined(log)
  {
    if Disciplined(log) {
      forall n | 0 <= n <= |log| ensures Coherent(log[..n]) {
        DisciplinedRunsAreCoherent(log[..n]);
      }
    }
    if forall n :: 0 <= n <= |log| ==> Coherent(log[..n]) {
      assert log[..|log|] == log;
      forall i, j | 0 <= i < |log| && 0 <= j < |log| && Key(log[i].pair) == Key(log[j].pair)
        ensures log[i].pair == log[j].pair
      {
        CoherentKeysDistinct(log, i, j);
      }
      forall i, j | 0 <= i < j < |log| && log[i].pair == log[j].pair
        ensures log[i].sequence <= log[j].sequence
      {
        if log[i].sequence > log[j].sequence {
          var prefix := log[..j + 1];
          assert Coherent(prefix);
          LateEventBreaksCoherence(prefix, i);
        }
      }
    }
  }

  /** A checkable form of the key condition: key-safe tenant ids and non-decreasing sequences. */
  lemma KeySafeRunsAreCoherent(log: seq<Event>)
    requires forall e :: e in log ==> KeySafe(e.pair.tenantId)
    requires forall i, j :: 0 <= i < j < |log| && log[i].pair == log[j].pair ==> log[i].sequence <= log[j].sequence
    ensures Coherent(log)
  {
    forall i, j | 0 <= i < |log| && 0 <= j < |log| && Key(log[i].pair) == Key(log[j].pair)
      ensures log[i].pair == log[j].pair
    {
      assert log[i] in log && log[j] in log;
      KeyInjective(log[i].pair, log[j].pair);
    }
    DisciplinedRunsAreCoherent(log);
  }

  // ---------------------------------------------------------------- replay

  ghost predicate DistinctSequences(log: seq<Event>, pair: Pair) {
    forall x, y :: x in log && y in log && x.pair == y.pair == pair && x.sequence == y.sequence ==> x == y
  }

  /** Arrival order does not matter when a pair's sequences are distinct. */
  lemma ReconstructionIgnoresArrivalOrder(log: seq<Event>, other: seq<Event>, pair: Pair, toSequence: Option<int>)
    requires multiset(log) == multiset(other)
    requires DistinctSequences(log, pair)
    ensures Reconstruction(log, pair, toSequence) == Reconstruction(other, pair, toSequence)
  {
    FilterMultiset(log, other, (e: Event) => e.pair == pair);
    var a, b := Filter(log, (e: Event) => e.pair == pair), Filter(other, (e: Event) => e.pair == pair);
    FilterMultiset(a, b, (e: Event) => UpTo(e, toSequence));
    var s, t := Selected(log, pair, toSequence), Selected(other, pair, toSequence);
    SortProperties(s, BySequence);
    SortProperties(t, BySequence);
    SelectedMembers(log, pair, toSequence);
    SortMembers(s, BySequence);
    SortedPermutationEqual(Sort(s, BySequence), Sort(t, BySequence), BySequence);
  }

  lemma {:induction false} FoldConcat(state: State, a: seq<Event>, b: seq<Event>)
    ensures Fold(state, a + b) == Fold(Fold(state, a), b)
  {
    if b == [] {
      assert a + b == a;
    } else {
      FoldConcat(state, a, DropLast(b));
      assert DropLast(a + b) == a + DropLast(b);
    }
  }

  lemma SelectedUpTo(log: seq<Event>, pair: Pair, s1: int, s2: int)
    requires s1 <= s2
    ensures Filter(Selected(log, pair, Some(s2)), (e: Event) => e.sequence <= s1) == Selected(log, pair, Some(s1))
  {
    var own := Filter(log, (e: Event) => e.pair == pair);
    FilterCompose(own, (e: Event) => UpTo(e, Some(s2)), (e: Event) => e.sequence <= s1,
                  (e: Event) => UpTo(e, Some(s1)));
  }

  lemma {:induction false} SelectedAfter(log: seq<Event>, pair: Pair, s1: int, s2: int)
    ensures Filter(Selected(log, pair, Some(s2)), (e: Event) => e.sequence > s1) ==
            Filter(Window(log, pair.tenantId, s1 + 1, s2), (e: Event) => e.pair == pair)
  {
    var all := (e: Event) => e.pair == pair && s1 < e.sequence <= s2;
    var own := (e: Event) => e.pair == pair && e.sequence <= s2;
    FilterCompose(log, (e: Event) => e.pair == pair, (e: Event) => UpTo(e, Some(s2)), own);
    FilterCompose(log, own, (e: Event) => e.sequence > s1, all);
    FilterCompose(log, (e: Event) => e.pair.tenantId == pair.tenantId && s1 + 1 <= e.sequence <= s2,
                  (e: Event) => e.pair == pair, all);
  }

  /** Replay resumes: the state at `s2` is the state at `s1` folded over the sorted events of the pair
      taken from the replay window (s1, s2]. */
  lemma ReplayResumes(log: seq<Event>, pair: Pair, s1: int, s2: int)
    requires s1 <= s2
    ensures var window := Filter(Window(log, pair.tenantId, s1 + 1, s2), (e: Event) => e.pair == pair);
            Reconstruction(log, pair, Some(s2)) ==
            Fold(Reconstruction(log, pair, Some(s1)), Sort(window, BySequence))
  {
    var window := Filter(Window(log, pair.tenantId, s1 + 1, s2), (e: Event) => e.pair == pair);
    SelectedUpTo(log, pair, s1, s2);
    SelectedAfter(log, pair, s1, s2);
    SortSplit(Selected(log, pair, Some(s2)), (e: Event) => e.sequence <= s1, (e: Event) => e.sequence > s1, BySequence);
    FoldConcat(DefaultState(pair), Sort(Selected(log, pair, Some(s1)), BySequence), Sort(window, BySequence));
  }

  // ---------------------------------------------------------------- what a replayed state means

  function RevocationCount(events: seq<Event>): nat {
    if events == [] then 0
    else RevocationCount(DropLast(events)) + if Last(events).kind.CapabilityRevoked? then 1 else 0
  }

  predicate AboutCapability(event: Event, capability: string) {
    || event.kind == CapabilityDelegated(capability)
    || event.kind == CapabilityRevoked(capability)
  }

  /** The last delegation or revocation of the capability is a delegation. */
  ghost predicate HoldsCapability(events: seq<Event>, capability: string) {
    exists i :: 0 <= i < |events| && events[i].kind == CapabilityDelegated(capability)
                && forall j :: i < j < |events| ==> !AboutCapability(events[j], capability)
  }

  ghost predicate TrustMoved(events: seq<Event>) {
    exists e :: e in events && e.kind.TrustChanged?
  }

  /** The value settled by the last event for which `f` settles one. */
  function LastSettled<T>(events: seq<Event>, f: Event -> Option<T>, initial: T): T {
    if events == [] then initial
    else if f(Last(events)).Some? then f(Last(events)).value
    else LastSettled(DropLast(events), f, initial)
  }

  function SettledLifecycle(event: Event): Option<Lifecycle> {
    match event.kind
    case Created => Some(Active)
    case LifecycleChanged(lifecycle) => Some(lifecycle)
    case _ => None
  }

  function SettledExposure(event: Event): Option<Exposure> {
    match event.kind
    case CapabilityDelegated(_) => Some(Limited)
    case ExecutionAttested => Some(Extended)
    case _ => None
  }

  function DeltaSum(events: seq<Event>): real {
    if events == [] then 0.0
    else DeltaSum(DropLast(events)) + if Last(events).kind.TrustChanged? then Last(events).kind.delta else 0.0
  }

  ghost predicate WellFormedState(state: State, events: seq<Event>) {
    WellFormedScores(state, events) && WellFormedRelationship(state, events)
  }

  ghost predicate WellFormedScores(state: State, events: seq<Event>) {
    && 0.0 <= state.trustScore <= 100.0
    && 0.0 <= state.resilienceScore <= 100.0
    && state.revocationReadiness == (if 20 * RevocationCount(events) > 100 then 100 else 20 * RevocationCount(events))
    && (TrustMoved(events) ==>
          && (state.health == Critical <==> state.trustScore < 30.0)
          && (state.health == Stable <==> state.trustScore >= 60.0))
    && (!TrustMoved(events) ==> state.health == Stable && state.trustScore == 50.0 && state.resilienceScore == 50.0)
    && state.lastEventSequence == (if events == [] then 0 else Last(events).sequence)
  }

  ghost predicate WellFormedRelationship(state: State, events: seq<Event>) {
    && Distinct(state.capabilities)
    && (forall c :: c in state.capabilities <==> HoldsCapability(events, c))
    && state.lifecycle == LastSettled(events, SettledLifecycle, Proposed)
    && state.exposure == LastSettled(events, SettledExposure, NoExposure)
  }

  lemma HoldsCapabilityStep(events: seq<Event>, c: string)
    requires events != []
    ensures HoldsCapability(events, c) <==>
            if Last(events).kind == CapabilityDelegated(c) then true
            else HoldsCapability(DropLast(events), c) && Last(events).kind != CapabilityRevoked(c)
  {
    var n := |events| - 1;
    if Last(events).kind == CapabilityDelegated(c) {
      assert events[n].kind == CapabilityDelegated(c);
    } else {
      if HoldsCapability(events, c) {
        var i :| 0 <= i < |events| && events[i].kind == CapabilityDelegated(c)
                 && forall j :: i < j < |events| ==> !AboutCapability(events[j], c);
        assert !AboutCapability(events[n], c);
        assert DropLast(events)[i].kind == CapabilityDelegated(c);
        forall j | i < j < |DropLast(events)| ensures !AboutCapability(DropLast(events)[j], c) {
          assert DropLast(events)[j] == events[j];
        }
      }
      if HoldsCapability(DropLast(events), c) && Last(events).kind != CapabilityRevoked(c) {
        var i :| 0 <= i < |DropLast(events)| && DropLast(events)[i].kind == CapabilityDelegated(c)
                 && forall j :: i < j < |DropLast(events)| ==> !AboutCapability(DropLast(events)[j], c);
        assert events[i].kind == CapabilityDelegated(c);
        forall j | i < j < |events| ensures !AboutCapability(events[j], c) {
          if j < n {
            assert DropLast(events)[j] == events[j];
          }
        }
      }
    }
  }

  lemma {:induction false} ScoresAreWellFormed(pair: Pair, events: seq<Event>)
    ensures WellFormedScores(Fold(DefaultState(pair), events), events)
  {
    if events != [] {
      ScoresAreWellFormed(pair, DropLast(events));
      assert events == DropLast(events) + [Last(events)];
      assert TrustMoved(events) <==> TrustMoved(DropLast(events)) || Last(events).kind.TrustChanged?;
    }
  }

  lemma {:induction false} FoldIsWellFormed(pair: Pair, events: seq<Event>)
    ensures WellFormedState(Fold(DefaultState(pair), events), events)
  {
    ScoresAreWellFormed(pair, events);
    if events != [] {
      var before, e := Fold(DefaultState(pair), DropLast(events)), Last(events);
      FoldIsWellFormed(pair, DropLast(events));
      forall c ensures c in Reduce(before, e).capabilities <==> HoldsCapability(events, c) {
        HoldsCapabilityStep(events, c);
        CapabilityStep(before, e, c);
      }
      CapabilitiesDistinct(before, e);
    }
  }

  lemma CapabilityStep(state: State, e: Event, c: string)
    ensures c in Reduce(state, e).capabilities <==>
            if e.kind == CapabilityDelegated(c) then true
            else c in state.capabilities && e.kind != CapabilityRevoked(c)
  {
    if e.kind.CapabilityDelegated? {
      DedupeProperties(state.capabilities + [e.kind.capability]);
    } else if e.kind.CapabilityRevoked? {
      FilterMembers(state.capabilities, x => x != e.kind.capability);
    }
  }

  lemma CapabilitiesDistinct(state: State, e: Event)
    requires Distinct(state.capabilities)
    ensures Distinct(Reduce(state, e).capabilities)
  {
    if e.kind.CapabilityDelegated? {
      DedupeProperties(state.capabilities + [e.kind.capability]);
    } else if e.kind.CapabilityRevoked? {
      FilterDistinct(state.capabilities, x => x != e.kind.capability);
    }
  }

  /** The point of [0, 100] that is nearest to x. */
  ghost predicate Nearest(y: real, x: real) {
    0.0 <= y <= 100.0 && forall z :: 0.0 <= z <= 100.0 ==> Distance(y, x) <= Distance(z, x)
  }

  function Distance(a: real, b: real): real {
    if a <= b then b - a else a - b
  }

  /** Scores move with changes of trust only: trust by the change, resilience by half of it rounded down, both kept
      within [0, 100]. */
  lemma ScoresFollowTrust(state: State, e: Event)
    requires 0.0 <= state.trustScore <= 100.0 && 0.0 <= state.resilienceScore <= 100.0
    ensures var after := Reduce(state, e);
            if e.kind.TrustChanged?
            then
              && Nearest(after.trustScore, state.trustScore + e.kind.delta)
              && exists half ::
                   IsHalf(half, e.kind.delta) && Nearest(after.resilienceScore, state.resilienceScore + half as real)
            else after.trustScore == state.trustScore && after.resilienceScore == state.resilienceScore
  {
    if e.kind.TrustChanged? {
      var half := (e.kind.delta / 2.0).Floor;
      assert IsHalf(half, e.kind.delta);
      ClampIsNearest(state.trustScore + e.kind.delta);
      ClampIsNearest(state.resilienceScore + half as real);
    }
  }

  /** Half of the change, rounded down. */
  predicate IsHalf(half: int, delta: real) {
    2.0 * half as real <= delta < 2.0 * half as real + 2.0
  }

  lemma ClampIsNearest(x: real)
    ensures Nearest(Clamp(x), x)
  {
  }

  /** A capability that is delegated joins the list at its end unless it is there, one that is revoked leaves it,
      and the others keep their order. */
  lemma CapabilityListStep(state: State, e: Event)
    requires Distinct(state.capabilities)
    ensures var after := Reduce(state, e).capabilities;
            match e.kind
            case CapabilityDelegated(c) =>
              after == if c in state.capabilities then state.capabilities else state.capabilities + [c]
            case CapabilityRevoked(c) => IsSelection(after, state.capabilities, x => x != c)
            case _ => after == state.capabilities
  {
    match e.kind
    case CapabilityDelegated(c) =>
      assert DropLast(state.capabilities + [c]) == state.capabilities;
      DedupeDistinct(state.capabilities);
    case CapabilityRevoked(c) => FilterIsSelection(state.capabilities, x => x != c);
    case _ =>
  }

  /** As long as no running total leaves [0, 100], clamping loses nothing. */
  lemma {:induction false} UnclampedTrust(pair: Pair, events: seq<Event>)
    requires forall n :: 0 <= n <= |events| ==> -50.0 <= DeltaSum(events[..n]) <= 50.0
    ensures Fold(DefaultState(pair), events).trustScore == 50.0 + DeltaSum(events)
  {
    assert events[..|events|] == events;
    if events != [] {
      var front := DropLast(events);
      forall n | 0 <= n <= |front| ensures -50.0 <= DeltaSum(front[..n]) <= 50.0 {
        assert front[..n] == events[..n];
      }
      UnclampedTrust(pair, front);
    }
  }

  /** Every reconstruction, at any sequence bound and for any log, is well formed. */
  lemma ReconstructionIsWellFormed(log: seq<Event>, pair: Pair, toSequence: Option<int>)
    ensures WellFormedState(Reconstruction(log, pair, toSequence),
                            Sort(Selected(log, pair, toSequence), BySequence))
    ensures Reconstruction(log, pair, toSequence).pair == pair
  {
    FoldIsWellFormed(pair, Sort(Selected(log, pair, toSequence), BySequence));
    FoldPair(DefaultState(pair), Sort(Selected(log, pair, toSequence), BySequence));
  }
}
