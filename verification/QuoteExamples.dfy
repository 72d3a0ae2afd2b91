/**
 The example quotes of the system's own tests: a restaurant in Seoul that is open from 17:30 to 21:30
 and closed on Mondays, asked on Wednesday 12 August 2026 at noon for Saturday 15 August at 19:00.
 */
module QuoteExamples {
  import opened Basics
  import opened ReservationData
  import opened Ledger
  import opened Policy

  const RESTAURANT := Restaurant(
    restaurantId := "REST-SEOUL-01",
    isOpen := true,
    serviceStart := Some(Clock(17, 30)),
    lastSeating := Some(Clock(21, 30)),
    slotIntervalMinutes := Some(30),
    bookingWindowDays := Some(30),
    minAdvanceMinutes := Some(120),
    closedWeekdays := {0},
    maxOnlinePartySize := Some(6),
    largePartyThreshold := Some(5),
    autoConfirmPartySizeMax := Some(4),
    depositPerPersonKrw := Some(20_000),
    depositHoldMinutes := Some(10),
    cancellationCutoffHours := Some(24),
    lateArrivalGraceMinutes := Some(15),
    quoteValidityMinutes := Some(5),
    policyVersion := "2026.08.1")

  function WindowTable(ledger: seq<Entry>): Table {
    Table(
      restaurantId := "REST-SEOUL-01",
      tableId := "TABLE-WINDOW-04",
      isAvailable := true,
      capacity := Some(6),
      minPartySize := Some(2),
      turnTimeMinutes := Some(120),
      isAccessible := true,
      isWindow := true,
      ledger := ledger,
      inventoryUpdatedAt := None,
      lastReservationId := None)
  }

  const SATURDAY_EVENING := Moment(1_786_788_000_000_000, 9 * HOUR)
  const WEDNESDAY_NOON := 1_786_503_600_000_000
  const FRIDAY_EVENING := 1_786_701_600_000_000

  /** A party asks for a seat by the window, on Saturday some minutes after 19:00. */
  function Ask(partySize: int, minutes: int, requestedAt: int): Inquiry {
    Inquiry(SATURDAY_EVENING.(instant := SATURDAY_EVENING.instant + minutes * MINUTE), requestedAt, partySize, true, Window)
  }

  lemma SaturdayEveningIsOnTheGrid(minutes: int)
    requires minutes == 0 || minutes == 60
    ensures var at := Ask(2, minutes, WEDNESDAY_NOON).desiredAt;
            && at.Weekday() == 5 && at.LocalMinute() == 19 * 60 + minutes
            && OnGrid(at.LocalMinute(), ServiceMinute(RESTAURANT.serviceStart, Clock(0, 0)),
                      RESTAURANT.slotIntervalMinutes.GetOr(30), 3 + minutes / 30)
  {
  }

  /** A party of two is confirmed without deposit, and can cancel freely until Friday at 19:00. */
  lemma SmallPartyIsConfirmed()
    ensures var quote := QuotePolicy(RESTAURANT, WindowTable([]), Ask(2, 0, WEDNESDAY_NOON));
            && quote.Ok? && quote.value.decision == AutoConfirmed && quote.value.isBookable
            && quote.value.depositKrw == 0 && quote.value.cancellationDeadlineAt == FRIDAY_EVENING
            && quote.value.holdMinutes == 10 && quote.value.reasons == []
  {
    SaturdayEveningIsOnTheGrid(0);
    assert Complies(RESTAURANT, WindowTable([]), Ask(2, 0, WEDNESDAY_NOON));
    NoReasonsMeansCompliance(RESTAURANT, WindowTable([]), Ask(2, 0, WEDNESDAY_NOON));
  }

  /** A party of five is asked for a deposit of 100,000. */
  lemma LargePartyPaysPerPerson()
    ensures var quote := QuotePolicy(RESTAURANT, WindowTable([]), Ask(5, 0, WEDNESDAY_NOON));
            quote.Ok? && quote.value.decision == PaymentRequired && quote.value.depositKrw == 100_000
  {
    SaturdayEveningIsOnTheGrid(0);
    assert Complies(RESTAURANT, WindowTable([]), Ask(5, 0, WEDNESDAY_NOON));
    NoReasonsMeansCompliance(RESTAURANT, WindowTable([]), Ask(5, 0, WEDNESDAY_NOON));
  }

  lemma OnlyOne(reasons: seq<Rule>, rule: Rule)
    requires rule in reasons && (forall i :: 0 <= i < |reasons| ==> reasons[i] == rule)
    requires forall i, j :: 0 <= i < j < |reasons| ==> Rank(reasons[i]) < Rank(reasons[j])
    ensures reasons == [rule]
  {
    if |reasons| > 1 {
      FirstTwoDiffer(reasons);
    }
  }

  lemma FirstTwoDiffer(reasons: seq<Rule>)
    requires |reasons| > 1
    requires forall i, j :: 0 <= i < j < |reasons| ==> Rank(reasons[i]) < Rank(reasons[j])
    ensures reasons[0] != reasons[1]
  {
    assert Rank(reasons[0]) < Rank(reasons[1]);
  }

  /** An active entry that meets the seating, and nothing else against it, gives the one reason. */
  lemma OnlyTheConflict(e: Entry, q: Inquiry, minutes: int)
    requires (minutes == 0 || minutes == 60) && q == Ask(2, minutes, WEDNESDAY_NOON)
    requires IsActive(e, q.requestedAt) && Meets(q.desiredAt.instant, q.desiredAt.instant + 120 * MINUTE, e)
    ensures var quote := QuotePolicy(RESTAURANT, WindowTable([e]), q);
            quote.Ok? && quote.value.decision == Unavailable && quote.value.reasons == [TurnTimeConflict]
  {
    var table := WindowTable([e]);
    SaturdayEveningIsOnTheGrid(minutes);
    ActiveMember([e], q.requestedAt, e);
    assert Violates(TurnTimeConflict, RESTAURANT, table, q);
    forall rule | rule != TurnTimeConflict ensures !Violates(rule, RESTAURANT, table, q) {
      SaturdayEveningIsOnTheGrid(minutes);
    }
    EligibilityIsExact(RESTAURANT, table, q);
    var reasons := Violated(RESTAURANT, table, q);
    assert TurnTimeConflict in reasons;
    assert forall i :: 0 <= i < |reasons| ==> reasons[i] == TurnTimeConflict by {
      forall i | 0 <= i < |reasons| ensures reasons[i] == TurnTimeConflict {
        assert reasons[i] in reasons;
      }
    }
    OnlyOne(reasons, TurnTimeConflict);
  }

  /** A booking from 18:30 to 20:30 blocks the table at 19:00, and only that rule is broken. */
  lemma OverlapIsTheOnlyReason()
    ensures var booked := Entry("reservation-existing", SATURDAY_EVENING.instant - 30 * MINUTE,
                                SATURDAY_EVENING.instant + 90 * MINUTE, Booked);
            var quote := QuotePolicy(RESTAURANT, WindowTable([booked]), Ask(2, 0, WEDNESDAY_NOON));
            quote.Ok? && quote.value.decision == Unavailable && quote.value.reasons == [TurnTimeConflict]
  {
    OnlyTheConflict(Entry("reservation-existing", SATURDAY_EVENING.instant - 30 * MINUTE,
                          SATURDAY_EVENING.instant + 90 * MINUTE, Booked), Ask(2, 0, WEDNESDAY_NOON), 0);
  }

  /** A hold from 19:30 to 21:30 blocks 20:00 at noon, and no longer eleven minutes later, when it has expired. */
  lemma ExpiredHoldIsIgnored()
    ensures var held := Entry("reservation-held", SATURDAY_EVENING.instant + 30 * MINUTE,
                              SATURDAY_EVENING.instant + 150 * MINUTE, Held(WEDNESDAY_NOON + 10 * MINUTE));
            var before := QuotePolicy(RESTAURANT, WindowTable([held]), Ask(2, 60, WEDNESDAY_NOON));
            var after := QuotePolicy(RESTAURANT, WindowTable([held]), Ask(2, 60, WEDNESDAY_NOON + 11 * MINUTE));
            && before.Ok? && before.value.decision == Unavailable && before.value.reasons == [TurnTimeConflict]
            && after.Ok? && after.value.decision == AutoConfirmed
  {
    var held := Entry("reservation-held", SATURDAY_EVENING.instant + 30 * MINUTE,
                      SATURDAY_EVENING.instant + 150 * MINUTE, Held(WEDNESDAY_NOON + 10 * MINUTE));
    OnlyTheConflict(held, Ask(2, 60, WEDNESDAY_NOON), 60);
    SaturdayEveningIsOnTheGrid(60);
    var late := Ask(2, 60, WEDNESDAY_NOON + 11 * MINUTE);
    assert Complies(RESTAURANT, WindowTable([held]), late);
    NoReasonsMeansCompliance(RESTAURANT, WindowTable([held]), late);
  }
}
