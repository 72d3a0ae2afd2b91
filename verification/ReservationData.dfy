/**
 The records of the restaurant reservation system.

 Instants are integers counting microseconds.  Only the requested seating time
 needs its UTC offset as well, because the service clock and the weekday are
 local.  A property that the source reads with a default is an `Option`.
 */
module ReservationData {
  import opened Basics

  type Id = string

  const MINUTE := 60_000_000
  const HOUR := 60 * MINUTE
  const DAY := 24 * HOUR

  /** The number of entries a stored table ledger may hold. */
  const LEDGER_LIMIT := 500

  /** An aware datetime: an instant together with the UTC offset it was written in. */
  datatype Moment = Moment(instant: int, offset: int) {
    function LocalMinute(): int {
      ((instant + offset) % DAY) / MINUTE
    }

    /** Monday is 0; instant 0 is a Thursday in UTC. */
    function Weekday(): int {
      ((instant + offset) / DAY + 3) % 7
    }
  }

  /**
   The local clock and weekday: `h` hours and `m` minutes into the local day that is `day` days after Thursday
   1 January 1970, the minute of the day is `60 h + m`, and the day is a Monday exactly if it is 4 more than a
   multiple of 7, with the weekdays counted on from there.
   */
  lemma LocalTime(at: Moment, day: int, h: int, m: int, rest: int)
    requires at.instant + at.offset == day * DAY + h * HOUR + m * MINUTE + rest
    requires 0 <= h < 24 && 0 <= m < 60 && 0 <= rest < MINUTE
    ensures at.LocalMinute() == 60 * h + m
    ensures 0 <= at.Weekday() < 7 && (day - 4 - at.Weekday()) % 7 == 0
  {
    DayAndTime(at.instant + at.offset, day, h * HOUR + m * MINUTE + rest);
    MinuteOfDay(h * HOUR + m * MINUTE + rest, 60 * h + m, rest);
    Remainder(day + 3);
  }

  lemma DayAndTime(x: int, day: int, time: int)
    requires x == day * DAY + time && 0 <= time < DAY
    ensures x % DAY == time && x / DAY == day
  {
  }

  lemma MinuteOfDay(time: int, minute: int, rest: int)
    requires time == minute * MINUTE + rest && 0 <= rest < MINUTE && 0 <= minute
    ensures time / MINUTE == minute
  {
  }

  lemma Remainder(x: int)
    ensures 0 <= x % 7 < 7 && (x - 7 - x % 7) % 7 == 0
  {
  }

  datatype Clock = Clock(hours: int, minutes: int) {
    predicate Valid() {
      0 <= hours < 24 && 0 <= minutes < 60
    }

    function Minutes(): int {
      hours * 60 + minutes
    }
  }

  datatype Restaurant = Restaurant(
    restaurantId: string,
    isOpen: bool,
    serviceStart: Option<Clock>,
    lastSeating: Option<Clock>,
    slotIntervalMinutes: Option<int>,
    bookingWindowDays: Option<int>,
    minAdvanceMinutes: Option<int>,
    closedWeekdays: set<int>,
    maxOnlinePartySize: Option<int>,
    largePartyThreshold: Option<int>,
    autoConfirmPartySizeMax: Option<int>,
    depositPerPersonKrw: Option<int>,
    depositHoldMinutes: Option<int>,
    cancellationCutoffHours: Option<int>,
    lateArrivalGraceMinutes: Option<int>,
    quoteValidityMinutes: Option<int>,
    policyVersion: string)
  {
    function StartMinutes(): int { serviceStart.GetOr(Clock(0, 0)).Minutes() }

    function LastMinutes(): int { lastSeating.GetOr(Clock(23, 59)).Minutes() }

    predicate ClocksValid() {
      serviceStart.GetOr(Clock(0, 0)).Valid() && lastSeating.GetOr(Clock(23, 59)).Valid()
    }

    function Interval(): int { slotIntervalMinutes.GetOr(30) }

    function Window(): int { bookingWindowDays.GetOr(30) * DAY }
  }

  /** What a ledger entry claims: an expiring hold, a booking, or nothing any more. */
  datatype Claim = Held(expiresAt: int) | Booked | Inactive

  datatype Entry = Entry(reservationId: Id, startsAt: int, endsAt: int, claim: Claim)

  datatype Table = Table(
    restaurantId: string,
    tableId: string,
    isAvailable: bool,
    capacity: Option<int>,
    minPartySize: Option<int>,
    turnTimeMinutes: Option<int>,
    isAccessible: bool,
    isWindow: bool,
    ledger: seq<Entry>,
    inventoryUpdatedAt: Option<int>,
    lastReservationId: Option<Id>)
  {
    function Turn(): int { turnTimeMinutes.GetOr(120) }
  }

  datatype Decision = Unavailable | CallRestaurant | PaymentRequired | AutoConfirmed | Requested

  datatype Status = StatusAutoConfirmed | StatusPaymentRequired | StatusConfirmed | StatusCancelled

  datatype HoldStatus = HoldHeld | HoldBooked | HoldReleased

  datatype PaymentStatus =
    | PayNotRequired | PayRequired | PayAuthorized | PayCancelledBeforePayment | PayRefunded

  datatype RefundStatus = RefundNotApplicable | RefundForfeited | RefundDone

  /** Opaque references to sandbox payments and refunds. */
  datatype Reference = NoReference
                     | PaymentReference(attemptId: string, reservationId: Id, payment: string)
                     | RefundReference(cancellationId: string, reservationId: Id, amount: int)

  datatype Reservation = Reservation(
    reservationId: Id,
    restaurantId: string,
    tableId: string,
    partySize: int,
    reservationAt: Moment,
    requestedAt: int,
    status: Status,
    policyVersion: string,
    policyDecision: Decision,
    quotedDepositKrw: int,
    cancellationDeadlineAt: int,
    lateArrivalGraceMinutes: int,
    quoteExpiresAt: int,
    hold: HoldStatus,
    holdExpiresAt: Option<int>,
    payment: PaymentStatus,
    paymentReference: Reference,
    paidDepositKrw: int,
    refund: RefundStatus,
    refundReference: Reference,
    refundedAmountKrw: int,
    refundedAt: Option<int>,
    inventoryVersion: int,
    turnTimeMinutes: int)

  datatype Seating = Accessible | Window | NoPreference

  /** What a diner asks for; `hasPhone` says that the phone number is not blank. */
  datatype Inquiry = Inquiry(
    desiredAt: Moment,
    requestedAt: int,
    partySize: int,
    hasPhone: bool,
    seating: Seating)

  /** One rule of the booking policy, named after the reason code its violation adds. */
  datatype Rule =
    | RestaurantClosed
    | TableUnavailable
    | TableRestaurantMismatch
    | PartyTooSmall
    | TableCapacityExceeded
    | PhoneRequired
    | MinimumNoticeNotMet
    | OutsideBookingWindow
    | ClosedWeekday
    | OutsideServiceHours
    | InvalidSlotInterval
    | AccessibleSeatUnavailable
    | WindowSeatUnavailable
    | TurnTimeConflict

  datatype Quote = Quote(
    decision: Decision,
    isBookable: bool,
    reasons: seq<Rule>,
    depositKrw: int,
    cancellationDeadlineAt: int,
    lateArrivalGraceMinutes: int,
    quoteExpiresAt: int,
    holdMinutes: int,
    serviceEndsAt: int,
    turnTimeMinutes: int,
    policyVersion: string,
    restaurantId: string,
    tableId: string)

  datatype Error =
    | InvalidClock
    | LedgerTooLong
    | LedgerFull
    | PolicyNotAccepted
    | PolicyRejected(reasons: seq<Rule>)
    | MissingObjectId
    | InvalidObjectVersion
    | WrongTable
    | NotAwaitingDeposit
    | HoldExpiryMissing
    | HoldExpired
    | PaymentDeclined
    | BlankOperationId
    | AlreadyCancelled
    | EntryMissing
}
