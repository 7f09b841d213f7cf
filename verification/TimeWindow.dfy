/** The mixed-precision window of capability-state.ts. */
module TimeWindow {
  import opened Wrappers
  import opened Text
  import opened Environment
  import opened Capabilities
  import opened CalendarTime

  /** The instants a `Date` can hold. */
  predicate IsDate(now: int) {
    -8_640_000_000_000_000 <= now <= 8_640_000_000_000_000
  }

  predicate Signed(s: string) {
    s != "" && s[0] in {'+', '-'}
  }

  /** `toISOString`: on the years 0 to 9999 the stamp of the second the instant falls into, and its milliseconds;
      outside them the year is written with a sign. */
  ghost predicate IsoFaithful(env: Env) {
    && (forall c: Civil, ms: nat :: OnCalendar(c) && ms < 1000 ==>
        env.iso(1000 * EpochSeconds(c) + ms) == IsoMilli(c, ms))
    && (forall now :: IsDate(now) && !Representable(now) ==> Signed(env.iso(now)))
  }

  /** The clock reading `now`, floored to its second. */
  function FloorSecond(now: int): int {
    now / 1000
  }

  /** The instant falls into a second that can be stamped. */
  ghost predicate Representable(now: int) {
    exists c :: OnCalendar(c) && EpochSeconds(c) == FloorSecond(now)
  }

  /** The first milliseconds of the years 0 and 10000. */
  const YEAR_0 := -62_167_219_200_000
  const YEAR_10000 := 253_402_300_800_000

  lemma YearBounds()
    ensures YEAR_0 == 1000 * EpochSeconds(FIRST)
    ensures YEAR_10000 == 1000 * (EpochSeconds(LAST) + 1)
  {
    DaysBeforeYearClosed(9999);
    assert DaysBeforeYear(9999) == 3652060;
    DecemberStarts();
  }

  lemma DecemberStarts()
    ensures DaysBeforeMonth(9999, 12) == 334
  {
    MonthsFillYear(9999);
  }

  lemma RepresentableIff(now: int)
    ensures Representable(now) <==> YEAR_0 <= now < YEAR_10000
  {
    YearBounds();
    if c :| OnCalendar(c) && EpochSeconds(c) == FloorSecond(now) {
      StampWithinYears(c);
    }
    if YEAR_0 <= now < YEAR_10000 {
      var c := EverySecondHasStamp(FloorSecond(now));
    }
  }

  lemma StampWithinYears(c: Civil)
    requires OnCalendar(c)
    ensures EpochSeconds(FIRST) <= EpochSeconds(c) <= EpochSeconds(LAST)
  {
    ChronologicalOrder(c, FIRST);
    ChronologicalOrder(LAST, c);
  }

  predicate CalendarStamp(s: string) {
    IsIsoSecond(s) && OnCalendar(CivilFrom(s))
  }

  function SecondsOf(s: string): int
    requires CalendarStamp(s)
  {
    EpochSeconds(CivilFrom(s))
  }

  lemma ClockStamp(env: Env, now: int) returns (c: Civil, ms: nat)
    requires IsoFaithful(env) && Representable(now)
    ensures OnCalendar(c) && EpochSeconds(c) == FloorSecond(now) && ms < 1000 && env.iso(now) == IsoMilli(c, ms)
  {
    c :| OnCalendar(c) && EpochSeconds(c) == FloorSecond(now);
    ms := now % 1000;
    assert now == 1000 * EpochSeconds(c) + ms;
  }

  /** The two string comparisons of the state evaluation, for any digits in the stamp. */
  lemma ComparisonsFloor(env: Env, now: int, s: string)
    requires IsoFaithful(env) && Representable(now) && CalendarStamp(s)
    ensures StrLt(env.iso(now), s) <==> FloorSecond(now) <= SecondsOf(s)
    ensures StrLe(s, env.iso(now)) <==> SecondsOf(s) < FloorSecond(now)
  {
    var c, ms := ClockStamp(env, now);
    ReadBack(s);
    MixedOrder(c, ms, CivilFrom(s));
    ChronologicalOrder(CivilFrom(s), c);
  }

  /** A sign sorts before every digit: before year 0 and from the year 10000 on an instant comes before every stamp. */
  lemma ComparisonsSigned(s: string, stamp: string)
    requires Signed(s) && IsIsoSecond(stamp)
    ensures StrLt(s, stamp) && !StrLe(stamp, s)
  {
    assert IsDigit(stamp[0]);
  }

  predicate CalendarTimes(c: Capability) {
    CalendarStamp(c.expiresAt) && (c.notBefore.Some? ==> CalendarStamp(c.notBefore.value))
  }

  /** Strictly after the second of `notBefore`, up to the end of the second of `expiresAt`. */
  predicate WithinSeconds(c: Capability, now: int)
    requires CalendarTimes(c)
  {
    && (c.notBefore.Some? ==> SecondsOf(c.notBefore.value) < FloorSecond(now))
    && FloorSecond(now) <= SecondsOf(c.expiresAt)
  }

  lemma WindowFloors(env: Env, c: Capability, now: int)
    requires IsoFaithful(env) && Representable(now) && CalendarTimes(c)
    ensures InWindow(env, c, now) <==> WithinSeconds(c, now)
  {
    ComparisonsFloor(env, now, c.expiresAt);
    if c.notBefore.Some? {
      ComparisonsFloor(env, now, c.notBefore.value);
    }
  }

  /** Outside the years 0 to 9999 the expiry no longer counts, and any `notBefore` is still to come. */
  lemma WindowOutsideYears(env: Env, c: Capability, now: int)
    requires IsoFaithful(env) && IsDate(now) && !Representable(now)
    requires IsIsoSecond(c.expiresAt) && (c.notBefore.Some? ==> IsIsoSecond(c.notBefore.value))
    ensures InWindow(env, c, now) <==> c.notBefore.None?
  {
    ComparisonsSigned(env.iso(now), c.expiresAt);
    if c.notBefore.Some? {
      ComparisonsSigned(env.iso(now), c.notBefore.value);
    }
  }

  /** The exact window of a verified capability with calendar times, at any instant a `Date` can hold. */
  lemma ExactWindow(env: Env, raw: Capability, now: int, port: RevocationPort)
    requires IsoFaithful(env) && IsDate(now) && Verify(env, raw).Ok? && CalendarTimes(Verify(env, raw).value)
    ensures var c := Verify(env, raw).value;
            EvaluateState(env, raw, now, port) == ActiveCapability <==>
              && port(c.capabilityHash) == Some(VerifiedNotRevoked)
              && if YEAR_0 <= now < YEAR_10000 then WithinSeconds(c, now) else c.notBefore.None?
  {
    var c := Verify(env, raw).value;
    ActiveIff(env, raw, now, port);
    RepresentableIff(now);
    if Representable(now) {
      WindowFloors(env, c, now);
    } else {
      WindowOutsideYears(env, c, now);
    }
  }

  /** In milliseconds: a capability wakes one second after its `notBefore` and sleeps one second after its
      `expiresAt`; without `notBefore` it is active again from the year 10000 on. */
  lemma WindowInMilliseconds(env: Env, raw: Capability, now: int, port: RevocationPort)
    requires IsoFaithful(env) && IsDate(now) && Verify(env, raw).Ok? && CalendarTimes(Verify(env, raw).value)
    requires port(Verify(env, raw).value.capabilityHash) == Some(VerifiedNotRevoked)
    ensures var c := Verify(env, raw).value;
            EvaluateState(env, raw, now, port) == ActiveCapability <==>
              if c.notBefore.Some?
              then 1000 * SecondsOf(c.notBefore.value) + 1000 <= now < 1000 * SecondsOf(c.expiresAt) + 1000
              else now < 1000 * SecondsOf(c.expiresAt) + 1000 || YEAR_10000 <= now
  {
    var c := Verify(env, raw).value;
    ExactWindow(env, raw, now, port);
    YearBounds();
    StampWithinYears(CivilFrom(c.expiresAt));
    if c.notBefore.Some? {
      StampWithinYears(CivilFrom(c.notBefore.value));
    }
  }

  lemma VerifiedTimes(env: Env, raw: Capability)
    requires Verify(env, raw).Ok?
    ensures var c := Verify(env, raw).value;
            && IsIsoSecond(c.issuedAt) && IsIsoSecond(c.expiresAt) && !StrLe(c.expiresAt, c.issuedAt)
            && (c.notBefore.Some? ==> IsIsoSecond(c.notBefore.value) && !StrLe(c.expiresAt, c.notBefore.value))
  {
    assert TemporalErrors(Verify(env, raw).value) == [];
  }

  /** A verified capability whose expiry is a calendar date is active at the very second it expires. */
  lemma WindowNonEmpty(env: Env, raw: Capability, port: RevocationPort)
    requires IsoFaithful(env) && Verify(env, raw).Ok? && CalendarStamp(Verify(env, raw).value.expiresAt)
    requires port(Verify(env, raw).value.capabilityHash) == Some(VerifiedNotRevoked)
    ensures EvaluateState(env, raw, 1000 * SecondsOf(Verify(env, raw).value.expiresAt), port) == ActiveCapability
  {
    VerifiedTimes(env, raw);
    ExpirySecondInWindow(env, Verify(env, raw).value);
    ActiveIff(env, raw, 1000 * SecondsOf(Verify(env, raw).value.expiresAt), port);
  }

  lemma ExpirySecondInWindow(env: Env, c: Capability)
    requires IsoFaithful(env) && CalendarStamp(c.expiresAt)
    requires c.notBefore.Some? ==> IsIsoSecond(c.notBefore.value) && !StrLe(c.expiresAt, c.notBefore.value)
    ensures InWindow(env, c, 1000 * SecondsOf(c.expiresAt))
  {
    var e := CivilFrom(c.expiresAt);
    ReadBack(c.expiresAt);
    assert env.iso(1000 * EpochSeconds(e) + 0) == IsoMilli(e, 0);
    MixedOrder(e, 0, e);
    if c.notBefore.Some? {
      var n := CivilFrom(c.notBefore.value);
      ReadBack(c.notBefore.value);
      SecondOrder(e, n);
      MixedOrder(e, 0, n);
    }
  }

  /** The last calendar stamp that is not after the given digits. */
  function LatestCalendar(c: Civil): Option<Civil> {
    var yearBefore := if c.year == 0 then None else Some(Civil(c.year - 1, 12, 31, 23, 59, 59));
    if c.month == 0 then yearBefore
    else if c.month > 12 then Some(Civil(c.year, 12, 31, 23, 59, 59))
    else if c.day == 0 then
      if c.month == 1 then yearBefore
      else Some(Civil(c.year, c.month - 1, DaysInMonth(c.year, c.month - 1), 23, 59, 59))
    else if c.day > DaysInMonth(c.year, c.month)
            then Some(Civil(c.year, c.month, DaysInMonth(c.year, c.month), 23, 59, 59))
    else if c.hour > 23 then Some(Civil(c.year, c.month, c.day, 23, 59, 59))
    else if c.minute > 59 then Some(Civil(c.year, c.month, c.day, c.hour, 59, 59))
    else if c.second > 59 then Some(c.(second := 59))
    else Some(c)
  }

  lemma LatestCalendarIsLatest(c: Civil)
    requires Writable(c)
    ensures LatestCalendar(c).Some? ==> OnCalendar(LatestCalendar(c).value) && !Before(c, LatestCalendar(c).value)
    ensures forall x :: OnCalendar(x) && !Before(c, x) ==>
              LatestCalendar(c).Some? && !Before(LatestCalendar(c).value, x)
  {
  }

  /** For any digits in the stamps: some instant of the years 0 to 9999 lies in the window exactly when the last
      calendar second up to `expiresAt` comes after `notBefore`. */
  lemma WindowNonEmptyIff(env: Env, c: Capability)
    requires IsoFaithful(env) && IsIsoSecond(c.expiresAt) && (c.notBefore.Some? ==> IsIsoSecond(c.notBefore.value))
    ensures (exists now :: Representable(now) && InWindow(env, c, now)) <==> HasCalendarSecond(c)
  {
    var e := CivilFrom(c.expiresAt);
    var latest := LatestCalendar(e);
    ReadBack(c.expiresAt);
    LatestCalendarIsLatest(e);
    if now :| Representable(now) && InWindow(env, c, now) {
      var x, ms := ClockStamp(env, now);
      StampInWindow(env, c, now, x, ms);
    }
    if HasCalendarSecond(c) {
      var now := 1000 * EpochSeconds(latest.value) + 0;
      assert env.iso(now) == IsoMilli(latest.value, 0);
      StampInWindow(env, c, now, latest.value, 0);
      assert Representable(now);
    }
  }

  predicate HasCalendarSecond(c: Capability)
    requires IsIsoSecond(c.expiresAt) && (c.notBefore.Some? ==> IsIsoSecond(c.notBefore.value))
  {
    var latest := LatestCalendar(CivilFrom(c.expiresAt));
    latest.Some? && (c.notBefore.Some? ==> Before(CivilFrom(c.notBefore.value), latest.value))
  }

  /** A verified capability with a `notBefore` is active at some instant exactly when there is such a second; without
      `notBefore` it always is, if only from the year 10000 on. */
  lemma EverActiveIff(env: Env, raw: Capability, port: RevocationPort)
    requires IsoFaithful(env) && Verify(env, raw).Ok?
    requires port(Verify(env, raw).value.capabilityHash) == Some(VerifiedNotRevoked)
    ensures (exists now :: IsDate(now) && EvaluateState(env, raw, now, port) == ActiveCapability) <==>
            Verify(env, raw).value.notBefore.None? || HasCalendarSecond(Verify(env, raw).value)
  {
    var c := Verify(env, raw).value;
    VerifiedTimes(env, raw);
    WindowNonEmptyIff(env, c);
    forall now ensures Representable(now) <==> YEAR_0 <= now < YEAR_10000 {
      RepresentableIff(now);
    }
    forall now ensures EvaluateState(env, raw, now, port) == ActiveCapability <==> InWindow(env, c, now) {
      ActiveIff(env, raw, now, port);
    }
    forall now | IsDate(now) && !Representable(now) ensures InWindow(env, c, now) <==> c.notBefore.None? {
      WindowOutsideYears(env, c, now);
    }
    if HasCalendarSecond(c) {
      var now :| Representable(now) && InWindow(env, c, now);
      assert IsDate(now) && EvaluateState(env, raw, now, port) == ActiveCapability;
    } else if c.notBefore.None? {
      assert IsDate(YEAR_10000) && EvaluateState(env, raw, YEAR_10000, port) == ActiveCapability;
    }
  }

  lemma StampInWindow(env: Env, c: Capability, now: int, x: Civil, ms: nat)
    requires OnCalendar(x) && ms < 1000 && env.iso(now) == IsoMilli(x, ms)
    requires IsIsoSecond(c.expiresAt) && (c.notBefore.Some? ==> IsIsoSecond(c.notBefore.value))
    ensures InWindow(env, c, now) <==>
            && (c.notBefore.Some? ==> Before(CivilFrom(c.notBefore.value), x))
            && !Before(CivilFrom(c.expiresAt), x)
  {
    ReadBack(c.expiresAt);
    MixedOrder(x, ms, CivilFrom(c.expiresAt));
    if c.notBefore.Some? {
      ReadBack(c.notBefore.value);
      MixedOrder(x, ms, CivilFrom(c.notBefore.value));
    }
  }

  /** The stamps of a capability that is never active: no calendar second lies between them. */
  const ISSUED := Civil(2024, 1, 31, 23, 59, 59)
  const NO_DATE := Civil(2024, 1, 99, 0, 0, 0)

  /** Stamps that are no dates can leave the window empty: from an active consent a capability is minted that
      verifies and is never active. */
  lemma WindowCanBeEmpty(env: Env, now: int, port: RevocationPort)
    requires Sound(env) && IsoFaithful(env) && IsDate(now) && env.parseDate(IsoSecond(ISSUED)).Some?
    ensures var minted := Mint(env, OpenInput(IsoSecond(ISSUED), IsoSecond(NO_DATE), Some(IsoSecond(ISSUED)), None));
            minted.Ok? && Verify(env, minted.value) == Ok(minted.value)
            && EvaluateState(env, minted.value, now, port) != ActiveCapability
  {
    var issued, expires := IsoSecond(ISSUED), IsoSecond(NO_DATE);
    var input := OpenInput(issued, expires, Some(issued), None);
    IsoSecondMatches(ISSUED);
    IsoSecondMatches(NO_DATE);
    SecondOrder(NO_DATE, ISSUED);
    SecondOrder(ISSUED, ISSUED);
    OpenGrantIsMinted(env, issued, expires, Some(issued), None);
    MintVerifiesIff(env, input);
    NeverActive(env, Mint(env, input).value, now, port);
  }

  lemma NoSecondBetween(c: Capability)
    requires IsIsoSecond(c.expiresAt) && c.notBefore.Some? && IsIsoSecond(c.notBefore.value)
    requires CivilFrom(c.notBefore.value) == ISSUED && CivilFrom(c.expiresAt) == NO_DATE
    ensures !HasCalendarSecond(c)
  {
  }

  lemma NeverActive(env: Env, c: Capability, now: int, port: RevocationPort)
    requires IsoFaithful(env) && IsDate(now) && Verify(env, c) == Ok(c)
    requires c.notBefore == Some(IsoSecond(ISSUED)) && c.expiresAt == IsoSecond(NO_DATE)
    ensures EvaluateState(env, c, now, port) != ActiveCapability
  {
    IsoSecondMatches(ISSUED);
    IsoSecondMatches(NO_DATE);
    NoSecondBetween(c);
    ActiveIff(env, c, now, port);
    if Representable(now) {
      WindowNonEmptyIff(env, c);
    } else {
      WindowOutsideYears(env, c, now);
    }
  }

  lemma IsoSecondMatches(c: Civil)
    requires Writable(c)
    ensures IsIsoSecond(IsoSecond(c)) && CivilFrom(IsoSecond(c)) == c
  {
  }

  /** A second or more after its consent expired a minted capability is active only from the year 10000 on, and
      then exactly when it verifies, is proven not revoked and has no `notBefore`. */
  lemma ActiveBeyondConsentIff(env: Env, input: MintInput, now: int, port: RevocationPort)
    requires Sound(env) && IsoFaithful(env) && IsDate(now) && Mint(env, input).Ok?
    requires var consent := NormalConsent(env, input);
             && consent.expiresAt.Some? && CalendarStamp(consent.expiresAt.value)
             && 1000 * SecondsOf(consent.expiresAt.value) + 1000 <= now
    ensures var c := Mint(env, input).value;
            EvaluateState(env, c, now, port) == ActiveCapability <==>
              Verify(env, c).Ok? && port(c.capabilityHash) == Some(VerifiedNotRevoked) && YEAR_10000 <= now
                && input.notBefore.None?
  {
    var c := Mint(env, input).value;
    MintVerifiesIff(env, input);
    MintDerives(env, input);
    ActiveIff(env, c, now, port);
    MintedNotBefore(env, input);
    if Verify(env, c).Ok? {
      BeyondBound(env, c, now, NormalConsent(env, input).expiresAt.value);
    }
  }

  lemma MintedNotBefore(env: Env, input: MintInput)
    requires Mint(env, input).Ok?
    ensures Mint(env, input).value.notBefore == input.notBefore
  {
  }

  lemma BeyondBound(env: Env, c: Capability, now: int, bound: string)
    requires IsoFaithful(env) && IsDate(now) && Verify(env, c) == Ok(c)
    requires StrLe(c.expiresAt, bound) && CalendarStamp(bound) && 1000 * SecondsOf(bound) + 1000 <= now
    ensures InWindow(env, c, now) <==> YEAR_10000 <= now && c.notBefore.None?
  {
    VerifiedTimes(env, c);
    RepresentableIff(now);
    YearBounds();
    StampWithinYears(CivilFrom(bound));
    if Representable(now) {
      if InWindow(env, c, now) {
        StampedWithin(env, c, now, bound);
      }
    } else {
      WindowOutsideYears(env, c, now);
    }
  }

  lemma StampedWithin(env: Env, c: Capability, now: int, bound: string)
    requires IsoFaithful(env) && Representable(now) && InWindow(env, c, now)
    requires IsIsoSecond(c.expiresAt) && StrLe(c.expiresAt, bound) && CalendarStamp(bound)
    ensures now < 1000 * SecondsOf(bound) + 1000
  {
    var n, ms := ClockStamp(env, now);
    var e, p := CivilFrom(c.expiresAt), CivilFrom(bound);
    ReadBack(c.expiresAt);
    ReadBack(bound);
    MixedOrder(n, ms, e);
    SecondOrder(e, p);
    ChronologicalOrder(p, n);
  }
}
