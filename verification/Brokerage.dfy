/** Routing and reputation of runtime/marketplace/brokerageRuntime.ts. */
module Brokerage {
  import opened Wrappers
  import opened Sequences
  import opened StableSorting

  datatype Provider = Provider(
    providerId: string, runtimeId: string, federationId: string, consentPolicyRefs: seq<string>, sovereignOptOut: bool)

  datatype Offer = Offer(
    offerId: string, providerId: string, capabilityId: string, scope: seq<string>, maxBudget: real,
    constraints: seq<string>)

  datatype Consumer = Consumer(runtimeId: string, budgetCeiling: real, acceptedPolicyRefs: seq<string>)

  datatype BrokerageRequest = BrokerageRequest(
    requestId: string, consumer: Consumer, capabilityId: string, requiredScope: seq<string>, maxBudget: real,
    federationId: string, requireConsentRef: string, lineage: seq<string>)

  datatype Record = Record(
      providerId: string, fulfilled: bool, obligationsMet: real, obligationsTotal: real, auditIntegrityScore: real)

  datatype Profile = Profile(providerId: string, records: seq<Record>, score: real)

  datatype Market = Market(providers: seq<Provider>, offers: seq<Offer>, reputations: seq<Profile>)

  datatype Decision = Decision(
    allowed: bool, selectedProviderId: Option<string>, selectedOfferId: Option<string>, trustPath: seq<string>,
    offered: real, budgetPass: bool, federationPass: bool, consentPass: bool,
    missingScopes: seq<string>, violatedConstraints: seq<string>)

  /** An offer with the provider found for it, if any. */
  datatype Row = Row(offer: Offer, provider: Option<Provider>)

  function FindProvider(providers: seq<Provider>, providerId: string): (r: Option<Provider>)
    ensures r.Some? ==> r.value in providers && r.value.providerId == providerId
    ensures r.Some? ==> exists i :: 0 <= i < |providers| && providers[i] == r.value
                                    && forall j :: 0 <= j < i ==> providers[j].providerId != providerId
    ensures r.None? <==> forall p :: p in providers ==> p.providerId != providerId
  {
    if providers == [] then None
    else if providers[0].providerId == providerId then Some(providers[0])
    else
      var rest := FindProvider(providers[1..], providerId);
      assert rest.Some? ==> forall i :: 0 <= i < |providers[1..]| && providers[1..][i] == rest.value
                                        ==> providers[i + 1] == rest.value;
      rest
  }

  function FindProfile(reputations: seq<Profile>, providerId: string): (r: Option<nat>)
    ensures r.Some? ==> r.value < |reputations| && reputations[r.value].providerId == providerId
    ensures r.Some? ==> forall j :: 0 <= j < r.value ==> reputations[j].providerId != providerId
    ensures r.None? <==> forall p :: p in reputations ==> p.providerId != providerId
  {
    if reputations == [] then None
    else if reputations[0].providerId == providerId then Some(0)
    else
      var rest := FindProfile(reputations[1..], providerId);
      if rest.Some? then Some(rest.value + 1) else None
  }

  function ReputationScore(m: Market, providerId: string): real {
    var found := FindProfile(m.reputations, providerId);
    if found.Some? then m.reputations[found.value].score else 0.0
  }

  function MissingScopes(request: BrokerageRequest, offer: Offer): seq<string> {
    Filter(request.requiredScope, NotIn(offer.scope))
  }

  function NotIn(scope: seq<string>): string -> bool {
    (s: string) => s !in scope
  }

  function EvaluateRow(request: BrokerageRequest, offer: Offer, provider: Provider): Decision {
    var missing := MissingScopes(request, offer);
    var budgetPass := offer.maxBudget <= request.maxBudget && offer.maxBudget <= request.consumer.budgetCeiling;
    var federationPass := provider.federationId == request.federationId
      && provider.runtimeId != request.consumer.runtimeId;
    var consentPass := request.requireConsentRef in provider.consentPolicyRefs
                       && request.requireConsentRef in request.consumer.acceptedPolicyRefs;
    var allowed := missing == [] && budgetPass && federationPass && consentPass;
    Decision(allowed, if allowed then Some(provider.providerId) else None,
             if allowed then Some(offer.offerId) else None,
             request.lineage + [provider.providerId], offer.maxBudget, budgetPass, federationPass, consentPass,
             missing, if allowed then [] else offer.constraints)
  }

  function Denial(request: BrokerageRequest): Decision {
    Decision(false, None, None, request.lineage, 0.0, false, false, false, request.requiredScope, ["no-provider-match"])
  }

  function RowOf(m: Market, offer: Offer): Row {
    Row(offer, FindProvider(m.providers, offer.providerId))
  }

  /** Higher reputation first. */
  predicate ByReputation(m: Market, a: Row, b: Row) {
    Score(m, a) >= Score(m, b)
  }

  function Score(m: Market, row: Row): real {
    if row.provider.Some? then ReputationScore(m, row.provider.value.providerId) else 0.0
  }

  predicate Listed(row: Row) {
    row.provider.Some? && !row.provider.value.sovereignOptOut
  }

  function Ranked(m: Market, request: BrokerageRequest): seq<Row> {
    var candidates := Filter(m.offers, (o: Offer) => o.capabilityId == request.capabilityId);
    Sort(Filter(Map(candidates, (o: Offer) => RowOf(m, o)), Listed), (a, b) => ByReputation(m, a, b))
  }

  predicate RowAllowed(request: BrokerageRequest, row: Row) {
    row.provider.Some? && EvaluateRow(request, row.offer, row.provider.value).allowed
  }

  // ---------------------------------------------------------------- sort, then first match, is argmax

  function FirstMatch<T>(s: seq<T>, ok: T -> bool): Option<T> {
    if s == [] then None
    else if FirstMatch(DropLast(s), ok).Some? then FirstMatch(DropLast(s), ok)
    else if ok(Last(s)) then Some(Last(s)) else None
  }

  /** One pass from left to right that keeps the first of the least elements that are `ok`. */
  function Best<T>(s: seq<T>, ok: T -> bool, le: (T, T) -> bool): Option<T> {
    if s == [] then None
    else
      var best := Best(DropLast(s), ok, le);
      if !ok(Last(s)) || (best.Some? && le(best.value, Last(s))) then best else Some(Last(s))
  }

  lemma {:induction false} FirstMatchMember<T>(s: seq<T>, ok: T -> bool)
    ensures FirstMatch(s, ok).Some? ==> FirstMatch(s, ok).value in s && ok(FirstMatch(s, ok).value)
    ensures FirstMatch(s, ok).None? <==> forall x :: x in s ==> !ok(x)
  {
    if s != [] {
      FirstMatchMember(DropLast(s), ok);
      assert s == DropLast(s) + [Last(s)];
    }
  }

  lemma {:induction false} FirstMatchInsert<T(!new)>(s: seq<T>, x: T, ok: T -> bool, le: (T, T) -> bool)
    requires TotalPreorder(le) && SortedBy(s, le)
    ensures var first := FirstMatch(s, ok);
            FirstMatch(Insert(s, x, le), ok) ==
              if !ok(x) || (first.Some? && le(first.value, x)) then first else Some(x)
  {
    if s == [] || le(Last(s), x) {
      assert DropLast(s + [x]) == s;
      FirstMatchMember(s, ok);
      if FirstMatch(s, ok).Some? {
        var i :| 0 <= i < |s| && s[i] == FirstMatch(s, ok).value;
        assert le(s[i], Last(s));
      }
    } else {
      FirstMatchInsert(DropLast(s), x, ok, le);
      var inserted := Insert(DropLast(s), x, le);
      assert DropLast(inserted + [Last(s)]) == inserted;
    }
  }

  lemma {:induction false} SortedFirstMatchIsBest<T(!new)>(s: seq<T>, ok: T -> bool, le: (T, T) -> bool)
    requires TotalPreorder(le)
    ensures FirstMatch(Sort(s, le), ok) == Best(s, ok, le)
  {
    if s != [] {
      SortedFirstMatchIsBest(DropLast(s), ok, le);
      SortProperties(DropLast(s), le);
      FirstMatchInsert(Sort(DropLast(s), le), Last(s), ok, le);
    }
  }

  /** Position `i` holds an `ok` element, none before it is as good, and none at all is better. */
  ghost predicate IsArgBest<T>(s: seq<T>, ok: T -> bool, le: (T, T) -> bool, i: nat) {
    && i < |s| && ok(s[i])
    && (forall j :: 0 <= j < |s| && ok(s[j]) ==> le(s[i], s[j]))
    && (forall j :: 0 <= j < i && ok(s[j]) ==> !le(s[j], s[i]))
  }

  lemma {:induction false} BestIsArgBest<T(!new)>(s: seq<T>, ok: T -> bool, le: (T, T) -> bool) returns (i: nat)
    requires TotalPreorder(le)
    ensures Best(s, ok, le).None? <==> forall x :: x in s ==> !ok(x)
    ensures Best(s, ok, le).Some? ==> IsArgBest(s, ok, le, i) && s[i] == Best(s, ok, le).value
  {
    i := 0;
    if s != [] {
      var k := BestIsArgBest(DropLast(s), ok, le);
      assert s == DropLast(s) + [Last(s)];
      var best := Best(DropLast(s), ok, le);
      i := if !ok(Last(s)) || (best.Some? && le(best.value, Last(s))) then k else |s| - 1;
      if best.None? {
        assert forall j :: 0 <= j < |s| - 1 ==> s[j] in DropLast(s);
      }
    }
  }

  lemma {:induction false} BestOfFilter<T>(
      s: seq<T>, keep: T -> bool, ok: T -> bool, both: T -> bool, le: (T, T) -> bool)
    requires forall x :: both(x) <==> keep(x) && ok(x)
    ensures Best(Filter(s, keep), ok, le) == Best(s, both, le)
  {
    if s != [] {
      BestOfFilter(DropLast(s), keep, ok, both, le);
      if keep(Last(s)) {
        assert DropLast(Filter(s, keep)) == Filter(DropLast(s), keep);
      } else {
        assert Filter(s, keep) == Filter(DropLast(s), keep);
      }
    }
  }

  lemma {:induction false} FilterMapFilter(m: Market, offers: seq<Offer>, wanted: Offer -> bool, keep: Row -> bool)
    requires forall r :: keep(r) <==> wanted(r.offer) && Listed(r)
    ensures Filter(Map(Filter(offers, wanted), (o: Offer) => RowOf(m, o)), Listed)
            == Filter(Map(offers, (o: Offer) => RowOf(m, o)), keep)
  {
    var f := (o: Offer) => RowOf(m, o);
    if offers != [] {
      var front, o := DropLast(offers), Last(offers);
      FilterMapFilter(m, front, wanted, keep);
      assert Map(offers, f) == Map(front, f) + [f(o)];
      FilterAppend(Map(front, f), f(o), keep);
      if wanted(o) {
        assert Map(Filter(offers, wanted), f) == Map(Filter(front, wanted), f) + [f(o)];
        FilterAppend(Map(Filter(front, wanted), f), f(o), Listed);
      } else {
        assert Filter(offers, wanted) == Filter(front, wanted);
      }
    }
  }

  // ---------------------------------------------------------------- routing

  function Route(m: Market, request: BrokerageRequest): Decision {
    var match_ := FirstMatch(Ranked(m, request), (r: Row) => RowAllowed(request, r));
    if match_.Some? && match_.value.provider.Some?
       then EvaluateRow(request, match_.value.offer, match_.value.provider.value)
    else Denial(request)
  }

  /** A published offer that may be selected: for the capability, from a known provider that has not opted
      out, and passing every check of the row. */
  predicate Eligible(m: Market, request: BrokerageRequest, offer: Offer) {
    && offer.capabilityId == request.capabilityId
    && var provider := FindProvider(m.providers, offer.providerId);
       && provider.Some? && !provider.value.sovereignOptOut
       && EvaluateRow(request, offer, provider.value).allowed
  }

  /** What the checks of a row ask for. */
  lemma RowAllowedMeaning(request: BrokerageRequest, offer: Offer, provider: Provider)
    ensures EvaluateRow(request, offer, provider).allowed <==>
            && (forall s :: s in request.requiredScope ==> s in offer.scope)
            && offer.maxBudget <= request.maxBudget && offer.maxBudget <= request.consumer.budgetCeiling
            && provider.federationId == request.federationId && provider.runtimeId != request.consumer.runtimeId
            && request.requireConsentRef in provider.consentPolicyRefs
            && request.requireConsentRef in request.consumer.acceptedPolicyRefs
    ensures forall s :: s in EvaluateRow(request, offer, provider).missingScopes <==>
                        s in request.requiredScope && s !in offer.scope
  {
    FilterMembers(request.requiredScope, NotIn(offer.scope));
    if forall s :: s in request.requiredScope ==> s in offer.scope {
      FilterNone(request.requiredScope, NotIn(offer.scope));
    }
  }

  /** What a decision about a row says: its checks one by one, the offer and its provider if and only if it is allowed,
      the provider at the end of the trust path, and the offer's constraints exactly when it is not. */
  lemma RowDecisionSays(request: BrokerageRequest, offer: Offer, provider: Provider)
    ensures var d := EvaluateRow(request, offer, provider);
            && (if d.allowed
                then d.selectedProviderId == Some(provider.providerId) && d.selectedOfferId == Some(offer.offerId)
                else d.selectedProviderId == None && d.selectedOfferId == None)
            && d.trustPath == request.lineage + [provider.providerId] && d.offered == offer.maxBudget
            && (d.budgetPass <==>
                  offer.maxBudget <= request.maxBudget && offer.maxBudget <= request.consumer.budgetCeiling)
            && (d.federationPass <==>
                  provider.federationId == request.federationId && provider.runtimeId != request.consumer.runtimeId)
            && (d.consentPass <==>
                  && request.requireConsentRef in provider.consentPolicyRefs
                  && request.requireConsentRef in request.consumer.acceptedPolicyRefs)
            && IsSelection(d.missingScopes, request.requiredScope, NotIn(offer.scope))
            && d.violatedConstraints == if d.allowed then [] else offer.constraints
  {
    FilterIsSelection(request.requiredScope, NotIn(offer.scope));
  }

  lemma ReputationOrder(m: Market)
    ensures TotalPreorder((a: Row, b: Row) => ByReputation(m, a, b))
  {
  }

  function Rows(m: Market): seq<Row> {
    Map(m.offers, (o: Offer) => RowOf(m, o))
  }

  function IsChosen(request: BrokerageRequest): Row -> bool {
    (r: Row) => r.offer.capabilityId == request.capabilityId && Listed(r) && RowAllowed(request, r)
  }

  /** The first allowed row of the ranked list is the best of the rows that may be chosen. */
  lemma RankedSelectsBest(m: Market, request: BrokerageRequest)
    ensures TotalPreorder((a: Row, b: Row) => ByReputation(m, a, b))
    ensures FirstMatch(Ranked(m, request), (r: Row) => RowAllowed(request, r)) ==
            Best(Rows(m), IsChosen(request), (a: Row, b: Row) => ByReputation(m, a, b))
  {
    var le := (a: Row, b: Row) => ByReputation(m, a, b);
    var allowed := (r: Row) => RowAllowed(request, r);
    var wanted := (o: Offer) => o.capabilityId == request.capabilityId;
    var keep := (r: Row) => wanted(r.offer) && Listed(r);
    ReputationOrder(m);
    FilterMapFilter(m, m.offers, wanted, keep);
    SortedFirstMatchIsBest(Filter(Rows(m), keep), allowed, le);
    BestOfFilter(Rows(m), keep, allowed, IsChosen(request), le);
  }

  /** Routing denies exactly when no published offer is eligible; otherwise it selects an eligible offer of
      maximal reputation, the earliest published among equals. */
  lemma RouteSelectsBest(m: Market, request: BrokerageRequest)
    ensures Route(m, request).allowed <==> exists o :: o in m.offers && Eligible(m, request, o)
    ensures !Route(m, request).allowed ==>
              var d := Route(m, request);
              && d.selectedProviderId == None && d.selectedOfferId == None && d.trustPath == request.lineage
              && d.offered == 0.0 && !d.budgetPass && !d.federationPass && !d.consentPass
              && d.missingScopes == request.requiredScope && d.violatedConstraints == ["no-provider-match"]
    ensures Route(m, request).allowed ==>
              exists i :: 0 <= i < |m.offers| && Eligible(m, request, m.offers[i])
                && Route(m, request) == EvaluateRow(request, m.offers[i],
                                                    FindProvider(m.providers, m.offers[i].providerId).value)
                && (forall j :: 0 <= j < |m.offers| && Eligible(m, request, m.offers[j]) ==>
                      ReputationScore(m, m.offers[j].providerId) <= ReputationScore(m, m.offers[i].providerId))
                && (forall j :: 0 <= j < i && Eligible(m, request, m.offers[j]) ==>
                      ReputationScore(m, m.offers[j].providerId) < ReputationScore(m, m.offers[i].providerId))
  {
    var le := (a: Row, b: Row) => ByReputation(m, a, b);
    var rows := Rows(m);
    RankedSelectsBest(m, request);
    var i := BestIsArgBest(rows, IsChosen(request), le);
    var selected := FirstMatch(Ranked(m, request), (r: Row) => RowAllowed(request, r));
    assert forall j :: 0 <= j < |rows| ==> (IsChosen(request)(rows[j]) <==> Eligible(m, request, m.offers[j]));
    if selected.Some? {
      assert Eligible(m, request, m.offers[i]);
      assert m.offers[i] in m.offers;
      forall j | 0 <= j < |m.offers| && Eligible(m, request, m.offers[j])
        ensures ReputationScore(m, m.offers[j].providerId) <= ReputationScore(m, m.offers[i].providerId)
        ensures j < i ==> ReputationScore(m, m.offers[j].providerId) < ReputationScore(m, m.offers[i].providerId)
      {
        assert IsChosen(request)(rows[j]) && le(rows[i], rows[j]);
        if j < i { assert !le(rows[j], rows[i]); }
      }
    } else {
      forall o | o in m.offers ensures !Eligible(m, request, o) {
        var j :| 0 <= j < |m.offers| && m.offers[j] == o;
        assert rows[j] in rows;
      }
    }
  }

  lemma {:induction false} FirstMatchPrefix<T>(s: seq<T>, ok: T -> bool, k: nat)
    requires k <= |s| && (forall x :: x in s[..k] ==> !ok(x)) && (k < |s| ==> ok(s[k]))
    ensures FirstMatch(s, ok) == if k < |s| then Some(s[k]) else None
  {
    if s != [] {
      if k == |s| {
        assert DropLast(s)[..k - 1] == s[..k - 1];
        assert s[..k] == s[..k - 1] + [s[k - 1]];
        FirstMatchPrefix(DropLast(s), ok, k - 1);
      } else if k == |s| - 1 {
        assert DropLast(s)[..k] == s[..k];
        FirstMatchPrefix(DropLast(s), ok, k);
      } else {
        assert DropLast(s)[..k] == s[..k];
        FirstMatchPrefix(DropLast(s), ok, k);
      }
    }
  }

  // ---------------------------------------------------------------- reputation

  function Max1(x: real): real {
    if x < 1.0 then 1.0 else x
  }

  function Fulfilled(records: seq<Record>): nat {
    if records == [] then 0 else Fulfilled(DropLast(records)) + if Last(records).fulfilled then 1 else 0
  }

  function ObligationSum(records: seq<Record>): real {
    if records == [] then 0.0
    else ObligationSum(DropLast(records)) + Last(records).obligationsMet / Max1(Last(records).obligationsTotal)
  }

  function AuditSum(records: seq<Record>): real {
    if records == [] then 0.0 else AuditSum(DropLast(records)) + Last(records).auditIntegrityScore
  }

  function Round(x: real): int {
    (x + 0.5).Floor
  }

  function RawScore(records: seq<Record>): int
    requires records != []
  {
    var total := |records| as real;
    Round((Fulfilled(records) as real / total) * 40.0 + (ObligationSum(records) / total) * 30.0
          + (AuditSum(records) / total / 100.0) * 30.0)
  }

  function ComputeTrustScore(records: seq<Record>): real {
    if records == [] then 0.0
    else
      var score := RawScore(records);
      if score < 0 then 0.0 else if score > 100 then 100.0 else score as real
  }

  predicate Plausible(r: Record) {
    0.0 <= r.obligationsMet <= r.obligationsTotal && 0.0 <= r.auditIntegrityScore <= 100.0
  }

  /** What one record is worth, out of a hundred: 40 for fulfilment, 30 for the share of obligations met, 30 for
      audit. */
  function Points(r: Record): real {
    (if r.fulfilled then 40.0 else 0.0)
    + 30.0 * (r.obligationsMet / if r.obligationsTotal < 1.0 then 1.0 else r.obligationsTotal)
    + 0.3 * r.auditIntegrityScore
  }

  function PointSum(records: seq<Record>): real {
    if records == [] then 0.0 else PointSum(DropLast(records)) + Points(Last(records))
  }

  lemma {:induction false} PointsSplit(records: seq<Record>)
    ensures PointSum(records) ==
            40.0 * Fulfilled(records) as real + 30.0 * ObligationSum(records) + 0.3 * AuditSum(records)
  {
    if records != [] {
      PointsSplit(DropLast(records));
    }
  }

  lemma WeightedShares(a: real, b: real, c: real, n: real)
    requires n > 0.0
    ensures (a / n) * 40.0 + (b / n) * 30.0 + (c / n / 100.0) * 30.0 == (40.0 * a + 30.0 * b + 0.3 * c) / n
  {
    assert (40.0 * a + 30.0 * b + 0.3 * c) / n == 40.0 * a / n + 30.0 * b / n + 0.3 * c / n;
  }

  /** The score is the average worth of the records, rounded and kept within [0, 100]; without records it is 0. */
  lemma ScoreIsAverageWorth(records: seq<Record>)
    ensures records == [] ==> ComputeTrustScore(records) == 0.0
    ensures records != [] ==>
              var average := PointSum(records) / |records| as real;
              exists n: int ::
                && IsRounded(n, average)
                && ComputeTrustScore(records) == if n < 0 then 0.0 else if n > 100 then 100.0 else n as real
  {
    if records != [] {
      PointsSplit(records);
      WeightedShares(Fulfilled(records) as real, ObligationSum(records), AuditSum(records), |records| as real);
      assert IsRounded(RawScore(records), PointSum(records) / |records| as real);
    }
  }

  /** The nearest integer, upwards from the middle. */
  predicate IsRounded(n: int, x: real) {
    n as real - 0.5 <= x < n as real + 0.5
  }

  lemma RatioInUnit(met: real, total: real)
    requires 0.0 <= met <= total
    ensures 0.0 <= met / Max1(total) <= 1.0
  {
  }

  lemma {:induction false} SumsBounded(records: seq<Record>)
    requires forall r :: r in records ==> Plausible(r)
    ensures 0 <= Fulfilled(records) <= |records|
    ensures 0.0 <= ObligationSum(records) <= |records| as real
    ensures 0.0 <= AuditSum(records) <= 100.0 * |records| as real
  {
    if records != [] {
      SumsBounded(DropLast(records));
      assert Plausible(Last(records));
      RatioInUnit(Last(records).obligationsMet, Last(records).obligationsTotal);
    }
  }

  lemma ShareInUnit(part: real, whole: real)
    requires 0.0 <= part <= whole && whole > 0.0
    ensures 0.0 <= part / whole <= 1.0
  {
  }

  /** On plausible records the clamp never changes the score. */
  lemma ClampNeverBites(records: seq<Record>)
    requires records != [] && forall r :: r in records ==> Plausible(r)
    ensures 0 <= RawScore(records) <= 100
    ensures ComputeTrustScore(records) == RawScore(records) as real
  {
    var total := |records| as real;
    SumsBounded(records);
    ShareInUnit(Fulfilled(records) as real, total);
    ShareInUnit(ObligationSum(records), total);
    ShareInUnit(AuditSum(records), 100.0 * total);
    assert AuditSum(records) / total / 100.0 == AuditSum(records) / (100.0 * total);
  }

  function AppendRecord(m: Market, record: Record): Market {
    var found := FindProfile(m.reputations, record.providerId);
    if found.None? then m
    else
      var profile := m.reputations[found.value];
      var records := profile.records + [record];
      m.(reputations := m.reputations[found.value := profile.(records := records, score := ComputeTrustScore(records))])
  }

  /** A record changes the reputation of its own provider only, and to the score of all its records. */
  lemma RecordMovesOneScore(m: Market, record: Record, providerId: string)
    ensures var m' := AppendRecord(m, record);
            && m'.providers == m.providers && m'.offers == m.offers && |m'.reputations| == |m.reputations|
            && (FindProfile(m.reputations, record.providerId).None? ==> m' == m)
            && (providerId != record.providerId ==> ReputationScore(m', providerId) == ReputationScore(m, providerId))
            && (FindProfile(m.reputations, record.providerId).Some? ==>
                  var i := FindProfile(m.reputations, record.providerId).value;
                  && m'.reputations[i].records == m.reputations[i].records + [record]
                  && ReputationScore(m', record.providerId) == ComputeTrustScore(m.reputations[i].records + [record]))
  {
    var found := FindProfile(m.reputations, record.providerId);
    if found.Some? {
      var m' := AppendRecord(m, record);
      SameIdsSameFind(m.reputations, m'.reputations, providerId);
      SameIdsSameFind(m.reputations, m'.reputations, record.providerId);
    }
  }

  /** A provider's reputation is the score of its first profile, and 0 without one. */
  lemma ReputationSays(m: Market, providerId: string)
    ensures (forall p :: p in m.reputations ==> p.providerId != providerId) ==> ReputationScore(m, providerId) == 0.0
    ensures forall i :: 0 <= i < |m.reputations| && m.reputations[i].providerId == providerId
                        && (forall j :: 0 <= j < i ==> m.reputations[j].providerId != providerId)
                        ==> ReputationScore(m, providerId) == m.reputations[i].score
  {
  }

  lemma {:induction false} SameIdsSameFind(a: seq<Profile>, b: seq<Profile>, providerId: string)
    requires |a| == |b| && forall i :: 0 <= i < |a| ==> a[i].providerId == b[i].providerId
    ensures FindProfile(a, providerId) == FindProfile(b, providerId)
  {
    if a != [] {
      SameIdsSameFind(a[1..], b[1..], providerId);
    }
  }

  // ---------------------------------------------------------------- the runtime

  class CapabilityBrokerageRuntime {
    var providers: seq<Provider>
    var offers: seq<Offer>
    var reputations: seq<Profile>

    function View(): Market
      reads this
    {
      Market(providers, offers, reputations)
    }

    constructor (market: Market)
      ensures View() == market
    {
      providers, offers, reputations := market.providers, market.offers, market.reputations;
    }

    method PublishProvider(provider: Provider)
      modifies this
      ensures View() == old(View()).(providers := old(providers) + [provider])
    {
      providers := providers + [provider];
    }

    method PublishOffer(offer: Offer)
      modifies this
      ensures View() == old(View()).(offers := old(offers) + [offer])
    {
      offers := offers + [offer];
    }

    method AppendReputationRecord(record: Record)
      modifies this
      ensures View() == AppendRecord(old(View()), record)
    {
      var found := FindProfile(reputations, record.providerId);
      if found.None? {
        return;
      }
      var profile := reputations[found.value];
      profile := profile.(records := profile.records + [record]);
      profile := profile.(score := ComputeTrustScore(profile.records));
      reputations := reputations[found.value := profile];
    }

    method RouteRequest(request: BrokerageRequest) returns (decision: Decision)
      ensures decision == Route(View(), request)
    {
      var ranked := Ranked(View(), request);
      for k := 0 to |ranked|
        invariant forall x :: x in ranked[..k] ==> !RowAllowed(request, x)
      {
        var row := ranked[k];
        if row.provider.Some? {
          decision := EvaluateRow(request, row.offer, row.provider.value);
          if decision.allowed {
            FirstMatchPrefix(ranked, (r: Row) => RowAllowed(request, r), k);
            return;
          }
        }
        assert ranked[..k + 1] == ranked[..k] + [row];
      }
      FirstMatchPrefix(ranked, (r: Row) => RowAllowed(request, r), |ranked|);
      decision := Denial(request);
    }
  }
}
