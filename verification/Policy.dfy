/** The booking policy: which rules a request breaks, and the quote a diner is shown. */
module Policy {
  import opened Basics
  import opened ReservationData
  import opened Ledger

  /** The rules in the order in which their reason codes are listed. */
  const RULES: seq<Rule> := [
    RestaurantClosed, TableUnavailable, TableRestaurantMismatch, PartyTooSmall, TableCapacityExceeded,
    PhoneRequired, MinimumNoticeNotMet, OutsideBookingWindow, ClosedWeekday, OutsideServiceHours,
    InvalidSlotInterval, AccessibleSeatUnavailable, WindowSeatUnavailable, TurnTimeConflict]

  predicate OffSlot(minute: int, start: int, interval: int) {
    interval <= 0 || (minute - start) % interval != 0
  }

  predicate Violates(rule: Rule, r: Restaurant, t: Table, q: Inquiry) {
    var minute := q.desiredAt.LocalMinute();
    match rule
    case RestaurantClosed => !r.isOpen
    case TableUnavailable => !t.isAvailable
    case TableRestaurantMismatch => t.restaurantId != r.restaurantId
    case PartyTooSmall => q.partySize < t.minPartySize.GetOr(1)
    case TableCapacityExceeded => q.partySize > t.capacity.GetOr(0)
    case PhoneRequired => !q.hasPhone
    case MinimumNoticeNotMet => q.desiredAt.instant - q.requestedAt < r.minAdvanceMinutes.GetOr(0) * MINUTE
    case OutsideBookingWindow => q.desiredAt.instant > q.requestedAt + r.Window()
    case ClosedWeekday => q.desiredAt.Weekday() in r.closedWeekdays
    case OutsideServiceHours => minute < r.StartMinutes() || minute > r.LastMinutes()
    case InvalidSlotInterval => OffSlot(minute, r.StartMinutes(), r.Interval())
    case AccessibleSeatUnavailable => q.seating.Accessible? && !t.isAccessible
    case WindowSeatUnavailable => q.seating.Window? && !t.isWindow
    case TurnTimeConflict =>
      Conflicts(t.ledger, q.requestedAt, q.desiredAt.instant, q.desiredAt.instant + t.Turn() * MINUTE)
  }

  function Broken(r: Restaurant, t: Table, q: Inquiry): set<Rule> {
    set rule: Rule | Violates(rule, r, t, q)
  }

  /** Those of `rules` that are broken, in order. */
  function Pick(rules: seq<Rule>, broken: set<Rule>): seq<Rule> {
    if rules == [] then []
    else
      var last := rules[|rules| - 1];
      Pick(rules[..|rules| - 1], broken) + (if last in broken then [last] else [])
  }

  function Violated(r: Restaurant, t: Table, q: Inquiry): seq<Rule> {
    Pick(RULES, Broken(r, t, q))
  }

  function Decide(r: Restaurant, partySize: int, reasons: seq<Rule>): Decision {
    if reasons != [] then Unavailable
    else if partySize > r.maxOnlinePartySize.GetOr(6) then CallRestaurant
    else if partySize >= r.largePartyThreshold.GetOr(5) then PaymentRequired
    else if partySize <= r.autoConfirmPartySizeMax.GetOr(4) then AutoConfirmed
    else Requested
  }

  function DepositAmount(r: Restaurant, partySize: int, decision: Decision): int {
    if decision != PaymentRequired then 0 else partySize * r.depositPerPersonKrw.GetOr(0)
  }

  function QuotePolicy(r: Restaurant, t: Table, q: Inquiry): Result<Quote, Error> {
    if !r.ClocksValid() then Err(InvalidClock)
    else if |t.ledger| > LEDGER_LIMIT then Err(LedgerTooLong)
    else
      var reasons := Violated(r, t, q);
      var decision := Decide(r, q.partySize, reasons);
      Ok(Quote(
           decision := decision,
           isBookable := decision == AutoConfirmed || decision == PaymentRequired,
           reasons := reasons,
           depositKrw := DepositAmount(r, q.partySize, decision),
           cancellationDeadlineAt := q.desiredAt.instant - r.cancellationCutoffHours.GetOr(24) * HOUR,
           lateArrivalGraceMinutes := r.lateArrivalGraceMinutes.GetOr(15),
           quoteExpiresAt := q.requestedAt + r.quoteValidityMinutes.GetOr(5) * MINUTE,
           holdMinutes := r.depositHoldMinutes.GetOr(10),
           serviceEndsAt := q.desiredAt.instant + t.Turn() * MINUTE,
           turnTimeMinutes := t.Turn(),
           policyVersion := if r.policyVersion == "" then "unversioned" else r.policyVersion,
           restaurantId := r.restaurantId,
           tableId := t.tableId))
  }

  /** The position of a rule in the published order. */
  function Rank(rule: Rule): nat {
    match rule
    case RestaurantClosed => 0
    case TableUnavailable => 1
    case TableRestaurantMismatch => 2
    case PartyTooSmall => 3
    case TableCapacityExceeded => 4
    case PhoneRequired => 5
    case MinimumNoticeNotMet => 6
    case OutsideBookingWindow => 7
    case ClosedWeekday => 8
    case OutsideServiceHours => 9
    case InvalidSlotInterval => 10
    case AccessibleSeatUnavailable => 11
    case WindowSeatUnavailable => 12
    case TurnTimeConflict => 13
  }

  // ----- the reason list as the source builds it

  function Flag(condition: bool, code: Rule): seq<Rule> {
    if condition then [code] else []
  }

  method AppendIf(reasons: seq<Rule>, condition: bool, code: Rule) returns (extended: seq<Rule>)
    ensures extended == reasons + Flag(condition, code)
  {
    extended := reasons;
    if condition {
      extended := extended + [code];
    }
  }

  method AppendTimePolicyReasons(reasons: seq<Rule>, r: Restaurant, q: Inquiry, ghost t: Table)
    returns (extended: seq<Rule>)
    requires reasons == Pick(RULES[..6], Broken(r, t, q))
    ensures extended == Pick(RULES[..11], Broken(r, t, q))
  {
    var lead := q.desiredAt.instant - q.requestedAt;
    extended := AppendIf(reasons, lead < r.minAdvanceMinutes.GetOr(0) * MINUTE, MinimumNoticeNotMet);
    extended := AppendIf(extended, q.desiredAt.instant > q.requestedAt + r.Window(), OutsideBookingWindow);
    extended := AppendIf(extended, q.desiredAt.Weekday() in r.closedWeekdays, ClosedWeekday);
    var start, last := r.StartMinutes(), r.LastMinutes();
    var desired := q.desiredAt.LocalMinute();
    extended := AppendIf(extended, desired < start || desired > last, OutsideServiceHours);
    extended := AppendIf(extended, OffSlot(desired, start, r.Interval()), InvalidSlotInterval);
    NoticeRules(r, t, q);
    ServiceHourRules(r, t, q);
  }

  method AppendSeatingReasons(reasons: seq<Rule>, t: Table, q: Inquiry, ghost r: Restaurant)
    returns (extended: seq<Rule>)
    requires reasons == Pick(RULES[..11], Broken(r, t, q))
    ensures extended == Pick(RULES[..13], Broken(r, t, q))
  {
    extended := reasons;
    if q.seating.Accessible? {
      extended := AppendIf(extended, !t.isAccessible, AccessibleSeatUnavailable);
    }
    if q.seating.Window? {
      extended := AppendIf(extended, !t.isWindow, WindowSeatUnavailable);
    }
    SeatingRules(r, t, q);
  }

  method EligibilityReasons(r: Restaurant, t: Table, q: Inquiry) returns (reasons: seq<Rule>)
    ensures reasons == Violated(r, t, q)
    ensures reasons == [] <==> Complies(r, t, q)
  {
    reasons := [];
    reasons := AppendIf(reasons, !r.isOpen, RestaurantClosed);
    reasons := AppendIf(reasons, !t.isAvailable, TableUnavailable);
    reasons := AppendIf(reasons, t.restaurantId != r.restaurantId, TableRestaurantMismatch);
    reasons := AppendIf(reasons, q.partySize < t.minPartySize.GetOr(1), PartyTooSmall);
    reasons := AppendIf(reasons, q.partySize > t.capacity.GetOr(0), TableCapacityExceeded);
    reasons := AppendIf(reasons, !q.hasPhone, PhoneRequired);
    RequestRules(r, t, q);
    reasons := AppendTimePolicyReasons(reasons, r, q, t);
    reasons := AppendSeatingReasons(reasons, t, q, r);
    var desired := q.desiredAt.instant;
    var conflict := HasTurnConflict(t.ledger, q.requestedAt, desired, desired + t.Turn() * MINUTE);
    reasons := AppendIf(reasons, conflict, TurnTimeConflict);
    ConflictRule(r, t, q);
    NoReasonsMeansCompliance(r, t, q);
  }

  lemma PickNext(k: nat, r: Restaurant, t: Table, q: Inquiry)
    requires k < |RULES|
    ensures Pick(RULES[..k + 1], Broken(r, t, q))
            == Pick(RULES[..k], Broken(r, t, q)) + Flag(Violates(RULES[k], r, t, q), RULES[k])
  {
    assert RULES[..k + 1][..k] == RULES[..k];
  }

  lemma RequestRules(r: Restaurant, t: Table, q: Inquiry)
    ensures Pick(RULES[..6], Broken(r, t, q))
            == [] + Flag(!r.isOpen, RestaurantClosed)
                  + Flag(!t.isAvailable, TableUnavailable)
                  + Flag(t.restaurantId != r.restaurantId, TableRestaurantMismatch)
                  + Flag(q.partySize < t.minPartySize.GetOr(1), PartyTooSmall)
                  + Flag(q.partySize > t.capacity.GetOr(0), TableCapacityExceeded)
                  + Flag(!q.hasPhone, PhoneRequired)
  {
    PickNext(0, r, t, q);
    PickNext(1, r, t, q);
    PickNext(2, r, t, q);
    PickNext(3, r, t, q);
    PickNext(4, r, t, q);
    PickNext(5, r, t, q);
  }

  lemma NoticeRules(r: Restaurant, t: Table, q: Inquiry)
    ensures Pick(RULES[..9], Broken(r, t, q))
            == Pick(RULES[..6], Broken(r, t, q))
               + Flag(q.desiredAt.instant - q.requestedAt < r.minAdvanceMinutes.GetOr(0) * MINUTE, MinimumNoticeNotMet)
               + Flag(q.desiredAt.instant > q.requestedAt + r.Window(), OutsideBookingWindow)
               + Flag(q.desiredAt.Weekday() in r.closedWeekdays, ClosedWeekday)
  {
    PickNext(6, r, t, q);
    PickNext(7, r, t, q);
    PickNext(8, r, t, q);
  }

  lemma ServiceHourRules(r: Restaurant, t: Table, q: Inquiry)
    ensures Pick(RULES[..11], Broken(r, t, q))
            == Pick(RULES[..9], Broken(r, t, q))
               + Flag(q.desiredAt.LocalMinute() < r.StartMinutes() || q.desiredAt.LocalMinute() > r.LastMinutes(),
                      OutsideServiceHours)
               + Flag(OffSlot(q.desiredAt.LocalMinute(), r.StartMinutes(), r.Interval()), InvalidSlotInterval)
  {
    PickNext(9, r, t, q);
    PickNext(10, r, t, q);
  }

  lemma SeatingRules(r: Restaurant, t: Table, q: Inquiry)
    ensures Pick(RULES[..13], Broken(r, t, q))
            == Pick(RULES[..11], Broken(r, t, q))
               + Flag(q.seating.Accessible? && !t.isAccessible, AccessibleSeatUnavailable)
               + Flag(q.seating.Window? && !t.isWindow, WindowSeatUnavailable)
  {
    PickNext(11, r, t, q);
    PickNext(12, r, t, q);
  }

  lemma ConflictRule(r: Restaurant, t: Table, q: Inquiry)
    ensures Violated(r, t, q)
            == Pick(RULES[..13], Broken(r, t, q))
               + Flag(Conflicts(t.ledger, q.requestedAt, q.desiredAt.instant,
                                q.desiredAt.instant + t.Turn() * MINUTE), TurnTimeConflict)
  {
    PickNext(13, r, t, q);
    assert RULES[..14] == RULES;
  }

  // ----- what the reason list and the quote mean

  lemma {:induction false} PickMember(rules: seq<Rule>, broken: set<Rule>, rule: Rule)
    ensures rule in Pick(rules, broken) <==> rule in rules && rule in broken
  {
    if rules != [] {
      PickMember(rules[..|rules| - 1], broken, rule);
      assert rules == rules[..|rules| - 1] + [rules[|rules| - 1]];
    }
  }

  lemma {:induction false} PickInOrder(rules: seq<Rule>, broken: set<Rule>)
    requires forall i, j :: 0 <= i < j < |rules| ==> Rank(rules[i]) < Rank(rules[j])
    ensures var picked := Pick(rules, broken);
            forall i, j :: 0 <= i < j < |picked| ==> Rank(picked[i]) < Rank(picked[j])
  {
    if rules != [] {
      var front, last := rules[..|rules| - 1], rules[|rules| - 1];
      PickInOrder(front, broken);
      forall rule | rule in Pick(front, broken) ensures Rank(rule) < Rank(last) {
        PickMember(front, broken, rule);
        var k :| 0 <= k < |front| && front[k] == rule;
        assert rules[k] == rule;
      }
      var picked := Pick(rules, broken);
      forall i, j | 0 <= i < j < |picked| ensures Rank(picked[i]) < Rank(picked[j]) {
        if j == |Pick(front, broken)| {
          assert picked[i] in Pick(front, broken) && picked[j] == last;
        } else {
          assert picked[i] == Pick(front, broken)[i] && picked[j] == Pick(front, broken)[j];
        }
      }
    }
  }

  lemma RulesAreRanked()
    ensures |RULES| == 14
    ensures forall rule: Rule :: Rank(rule) < |RULES| && RULES[Rank(rule)] == rule
    ensures forall i :: 0 <= i < |RULES| ==> Rank(RULES[i]) == i
  {
    forall rule: Rule ensures Rank(rule) < |RULES| && RULES[Rank(rule)] == rule {
    }
    forall i | 0 <= i < |RULES| ensures Rank(RULES[i]) == i {
    }
  }

  /** The reason list is exactly the broken rules, each once, in the published order. */
  lemma EligibilityIsExact(r: Restaurant, t: Table, q: Inquiry)
    ensures var reasons := Violated(r, t, q);
            && (forall rule :: rule in reasons <==> Violates(rule, r, t, q))
            && (forall i, j :: 0 <= i < j < |reasons| ==> Rank(reasons[i]) < Rank(reasons[j]))
  {
    RulesAreRanked();
    assert forall i, j :: 0 <= i < j < |RULES| ==> Rank(RULES[i]) == i && Rank(RULES[j]) == j;
    forall rule ensures rule in Violated(r, t, q) <==> Violates(rule, r, t, q) {
      PickMember(RULES, Broken(r, t, q), rule);
      assert RULES[Rank(rule)] == rule;
    }
    var reasons := Violated(r, t, q);
    PickInOrder(RULES, Broken(r, t, q));
    assert reasons == Pick(RULES, Broken(r, t, q));
    forall i, j | 0 <= i < j < |reasons| ensures Rank(reasons[i]) < Rank(reasons[j]) {
    }
  }

  predicate OnGrid(minute: int, start: int, interval: int, k: nat) {
    minute == start + k * interval
  }

  /** The minute of the day that a restaurant starts to serve, or seats for the last time. */
  function ServiceMinute(clock: Option<Clock>, default: Clock): int {
    clock.GetOr(default).hours * 60 + clock.GetOr(default).minutes
  }

  /** The times of a request agree with notice, window, weekdays and service hours. */
  ghost predicate TimelyRequest(r: Restaurant, q: Inquiry) {
    && q.requestedAt + r.minAdvanceMinutes.GetOr(0) * MINUTE <= q.desiredAt.instant
    && q.desiredAt.instant <= q.requestedAt + r.bookingWindowDays.GetOr(30) * DAY
    && q.desiredAt.Weekday() !in r.closedWeekdays
    && 0 < r.slotIntervalMinutes.GetOr(30)
    && q.desiredAt.LocalMinute() <= ServiceMinute(r.lastSeating, Clock(23, 59))
    && (exists k: nat :: OnGrid(q.desiredAt.LocalMinute(), ServiceMinute(r.serviceStart, Clock(0, 0)),
                                r.slotIntervalMinutes.GetOr(30), k))
  }

  /** The policy said positively, without reason codes or remainders, and with every default. */
  ghost predicate Complies(r: Restaurant, t: Table, q: Inquiry) {
    && r.isOpen && t.isAvailable && t.restaurantId == r.restaurantId && q.hasPhone
    && t.minPartySize.GetOr(1) <= q.partySize <= t.capacity.GetOr(0)
    && TimelyRequest(r, q)
    && (q.seating == Accessible ==> t.isAccessible) && (q.seating == Window ==> t.isWindow)
    && (forall e :: e in t.ledger && IsActive(e, q.requestedAt) ==>
                      !Meets(q.desiredAt.instant, q.desiredAt.instant + t.turnTimeMinutes.GetOr(120) * MINUTE, e))
  }

  lemma GridMeansDivisible(minute: int, start: int, interval: int)
    requires 0 < interval
    ensures (exists k: nat :: OnGrid(minute, start, interval, k))
            <==> start <= minute && !OffSlot(minute, start, interval)
  {
    if start <= minute && !OffSlot(minute, start, interval) {
      var k: nat := (minute - start) / interval;
      assert OnGrid(minute, start, interval, k);
    }
    if k: nat :| OnGrid(minute, start, interval, k) {
      MultipleHasNoRemainder(k, interval);
      assert k * interval >= 0;
    }
  }

  lemma MultipleHasNoRemainder(k: nat, d: int)
    requires 0 < d
    ensures (k * d) % d == 0
  {
    SmallMultipleIsZero(k - k * d / d, d);
  }

  lemma SmallMultipleIsZero(m: int, d: int)
    requires 0 <= m * d < d
    ensures m == 0
  {
  }

  lemma NoReasonsMeansCompliance(r: Restaurant, t: Table, q: Inquiry)
    ensures Violated(r, t, q) == [] <==> Complies(r, t, q)
  {
    var reasons := Violated(r, t, q);
    EligibilityIsExact(r, t, q);
    assert reasons == [] <==> forall rule :: !Violates(rule, r, t, q) by {
      if reasons != [] {
        assert reasons[0] in reasons;
      }
    }
    if Complies(r, t, q) {
      forall rule ensures !Violates(rule, r, t, q) {
        ComplianceBreaksNoRule(r, t, q, rule);
      }
    }
    if forall rule :: !Violates(rule, r, t, q) {
      NoBrokenRuleComplies(r, t, q);
    }
  }

  lemma ComplianceBreaksNoRule(r: Restaurant, t: Table, q: Inquiry, rule: Rule)
    requires Complies(r, t, q)
    ensures !Violates(rule, r, t, q)
  {
    if rule == TurnTimeConflict {
      forall e | e in Active(t.ledger, q.requestedAt) ensures e in t.ledger && IsActive(e, q.requestedAt) {
        ActiveMember(t.ledger, q.requestedAt, e);
      }
    } else {
      TimelyExactly(r, t, q);
    }
  }

  lemma NoConflictMeansFree(ledger: seq<Entry>, at: int, start: int, end: int)
    requires !Conflicts(ledger, at, start, end)
    ensures forall e :: e in ledger && IsActive(e, at) ==> !Meets(start, end, e)
  {
    forall e | e in ledger && IsActive(e, at) ensures !Meets(start, end, e) {
      ActiveMember(ledger, at, e);
    }
  }

  lemma TimelyExactly(r: Restaurant, t: Table, q: Inquiry)
    ensures TimelyRequest(r, q)
            <==> && !Violates(MinimumNoticeNotMet, r, t, q) && !Violates(OutsideBookingWindow, r, t, q)
                 && !Violates(ClosedWeekday, r, t, q) && !Violates(OutsideServiceHours, r, t, q)
                 && !Violates(InvalidSlotInterval, r, t, q)
  {
    if 0 < r.slotIntervalMinutes.GetOr(30) {
      GridMeansDivisible(
        q.desiredAt.LocalMinute(), ServiceMinute(r.serviceStart, Clock(0, 0)), r.slotIntervalMinutes.GetOr(30));
    }
  }

  lemma NoBrokenRuleComplies(r: Restaurant, t: Table, q: Inquiry)
    requires forall rule :: !Violates(rule, r, t, q)
    ensures Complies(r, t, q)
  {
    assert !Violates(RestaurantClosed, r, t, q) && !Violates(TableUnavailable, r, t, q);
    assert !Violates(TableRestaurantMismatch, r, t, q) && !Violates(PhoneRequired, r, t, q);
    assert !Violates(PartyTooSmall, r, t, q) && !Violates(TableCapacityExceeded, r, t, q);
    assert !Violates(AccessibleSeatUnavailable, r, t, q);
    assert !Violates(WindowSeatUnavailable, r, t, q) && !Violates(TurnTimeConflict, r, t, q);
    TimelyExactly(r, t, q);
    NoConflictMeansFree(t.ledger, q.requestedAt, q.desiredAt.instant, q.desiredAt.instant + t.Turn() * MINUTE);
  }

  /** A quote is bookable exactly for compliant requests of a party size that is handled online. */
  lemma BookableExactly(r: Restaurant, t: Table, q: Inquiry)
    requires QuotePolicy(r, t, q).Ok?
    ensures QuotePolicy(r, t, q).value.isBookable
            <==> && Complies(r, t, q)
                 && q.partySize <= r.maxOnlinePartySize.GetOr(6)
                 && (q.partySize >= r.largePartyThreshold.GetOr(5)
                     || q.partySize <= r.autoConfirmPartySizeMax.GetOr(4))
  {
    NoReasonsMeansCompliance(r, t, q);
  }

  // ----- the reason codes, each with what it says

  function RequestReasons(r: Restaurant, t: Table, q: Inquiry): seq<Rule> {
    Flag(!r.isOpen, RestaurantClosed)
    + Flag(!t.isAvailable, TableUnavailable)
    + Flag(t.restaurantId != r.restaurantId, TableRestaurantMismatch)
    + Flag(q.partySize < t.minPartySize.GetOr(1), PartyTooSmall)
    + Flag(t.capacity.GetOr(0) < q.partySize, TableCapacityExceeded)
    + Flag(!q.hasPhone, PhoneRequired)
  }

  function NoticeReasons(r: Restaurant, q: Inquiry): seq<Rule> {
    Flag(q.desiredAt.instant < q.requestedAt + r.minAdvanceMinutes.GetOr(0) * MINUTE, MinimumNoticeNotMet)
    + Flag(q.requestedAt + r.bookingWindowDays.GetOr(30) * DAY < q.desiredAt.instant, OutsideBookingWindow)
    + Flag(q.desiredAt.Weekday() in r.closedWeekdays, ClosedWeekday)
  }

  function ServiceHourReasons(r: Restaurant, minute: int): seq<Rule> {
    var start, last := ServiceMinute(r.serviceStart, Clock(0, 0)), ServiceMinute(r.lastSeating, Clock(23, 59));
    var interval := r.slotIntervalMinutes.GetOr(30);
    Flag(minute < start || last < minute, OutsideServiceHours)
    + Flag(interval <= 0 || (minute - start) % interval != 0, InvalidSlotInterval)
  }

  function SeatingReasons(t: Table, q: Inquiry): seq<Rule> {
    Flag(q.seating == Accessible && !t.isAccessible, AccessibleSeatUnavailable)
    + Flag(q.seating == Window && !t.isWindow, WindowSeatUnavailable)
  }

  ghost function ConflictReason(t: Table, q: Inquiry): seq<Rule> {
    var end := q.desiredAt.instant + t.turnTimeMinutes.GetOr(120) * MINUTE;
    Flag(exists e :: e in t.ledger && IsActive(e, q.requestedAt) && Meets(q.desiredAt.instant, end, e), TurnTimeConflict)
  }

  lemma RequestReasonsAreListed(r: Restaurant, t: Table, q: Inquiry)
    ensures Pick(RULES[..6], Broken(r, t, q)) == RequestReasons(r, t, q)
  {
    RequestRules(r, t, q);
    assert [] + Flag(!r.isOpen, RestaurantClosed) == Flag(!r.isOpen, RestaurantClosed);
  }

  lemma NoticeReasonsAreListed(r: Restaurant, t: Table, q: Inquiry)
    ensures Pick(RULES[..9], Broken(r, t, q)) == Pick(RULES[..6], Broken(r, t, q)) + NoticeReasons(r, q)
  {
    NoticeRules(r, t, q);
  }

  lemma ServiceHourReasonsAreListed(r: Restaurant, t: Table, q: Inquiry)
    ensures Pick(RULES[..11], Broken(r, t, q))
         == Pick(RULES[..9], Broken(r, t, q)) + ServiceHourReasons(r, q.desiredAt.LocalMinute())
  {
    ServiceHourRules(r, t, q);
  }

  lemma SeatReasonsAreListed(r: Restaurant, t: Table, q: Inquiry)
    ensures Pick(RULES[..13], Broken(r, t, q)) == Pick(RULES[..11], Broken(r, t, q)) + SeatingReasons(t, q)
    ensures Violated(r, t, q) == Pick(RULES[..13], Broken(r, t, q)) + ConflictReason(t, q)
  {
    SeatingRules(r, t, q);
    ConflictRule(r, t, q);
    ConflictsMeansMeets(t.ledger, q.requestedAt, q.desiredAt.instant, q.desiredAt.instant + t.Turn() * MINUTE);
  }

  /**
   The reason list, code by code: each code stands in it exactly if what it says is so of the request, and the codes
   stand in this order.
   */
  lemma ReasonsExactly(r: Restaurant, t: Table, q: Inquiry)
    ensures Violated(r, t, q)
         == RequestReasons(r, t, q) + NoticeReasons(r, q) + ServiceHourReasons(r, q.desiredAt.LocalMinute())
            + SeatingReasons(t, q) + ConflictReason(t, q)
  {
    RequestReasonsAreListed(r, t, q);
    NoticeReasonsAreListed(r, t, q);
    ServiceHourReasonsAreListed(r, t, q);
    SeatReasonsAreListed(r, t, q);
  }

  lemma ConflictsMeansMeets(ledger: seq<Entry>, at: int, start: int, end: int)
    ensures Conflicts(ledger, at, start, end) <==> exists e :: e in ledger && IsActive(e, at) && Meets(start, end, e)
  {
    if Conflicts(ledger, at, start, end) {
      var e :| e in Active(ledger, at) && Meets(start, end, e);
      ActiveMember(ledger, at, e);
    }
    if e :| e in ledger && IsActive(e, at) && Meets(start, end, e) {
      ActiveMember(ledger, at, e);
    }
  }

  /** How many are in the party decides what a compliant request is answered. */
  ghost predicate DecidedBySize(r: Restaurant, partySize: int, decision: Decision) {
    var maximum, threshold, automatic :=
      r.maxOnlinePartySize.GetOr(6), r.largePartyThreshold.GetOr(5), r.autoConfirmPartySizeMax.GetOr(4);
    && decision != Unavailable
    && (decision == CallRestaurant <==> maximum < partySize)
    && (decision == PaymentRequired <==> threshold <= partySize <= maximum)
    && (decision == AutoConfirmed <==> partySize < threshold && partySize <= maximum && partySize <= automatic)
    && (decision == Requested <==> partySize < threshold && partySize <= maximum && automatic < partySize)
  }

  /** What a quote promises, reckoned from the request and the policy numbers. */
  ghost predicate Promises(quote: Quote, r: Restaurant, t: Table, q: Inquiry) {
    && quote.depositKrw == (if quote.decision == PaymentRequired then q.partySize * r.depositPerPersonKrw.GetOr(0) else 0)
    && quote.cancellationDeadlineAt == q.desiredAt.instant - r.cancellationCutoffHours.GetOr(24) * HOUR
    && quote.lateArrivalGraceMinutes == r.lateArrivalGraceMinutes.GetOr(15)
    && quote.quoteExpiresAt == q.requestedAt + r.quoteValidityMinutes.GetOr(5) * MINUTE
    && quote.holdMinutes == r.depositHoldMinutes.GetOr(10)
    && quote.turnTimeMinutes == t.turnTimeMinutes.GetOr(120)
    && quote.serviceEndsAt == q.desiredAt.instant + t.turnTimeMinutes.GetOr(120) * MINUTE
    && quote.policyVersion == (if r.policyVersion == "" then "unversioned" else r.policyVersion)
    && quote.restaurantId == r.restaurantId && quote.tableId == t.tableId
  }

  /**
   The quote, exactly: it raises only for a clock or a ledger that is not valid; it is unavailable exactly for a request
   that does not comply, and otherwise decided by the size of the party alone; it is bookable exactly if it is
   confirmed or asks for a deposit; and it promises what the policy numbers say.
   */
  lemma QuoteExactly(r: Restaurant, t: Table, q: Inquiry)
    ensures QuotePolicy(r, t, q) == Err(InvalidClock) <==> !r.ClocksValid()
    ensures QuotePolicy(r, t, q) == Err(LedgerTooLong) <==> r.ClocksValid() && |t.ledger| > 500
    ensures QuotePolicy(r, t, q).Ok? <==> r.ClocksValid() && |t.ledger| <= 500
    ensures QuotePolicy(r, t, q).Ok? ==>
              var quote := QuotePolicy(r, t, q).value;
              && (if Complies(r, t, q) then DecidedBySize(r, q.partySize, quote.decision)
                  else quote.decision == Unavailable)
              && (quote.isBookable <==> quote.decision == AutoConfirmed || quote.decision == PaymentRequired)
              && (forall rule :: rule in quote.reasons <==> Violates(rule, r, t, q))
              && Promises(quote, r, t, q)
  {
    NoReasonsMeansCompliance(r, t, q);
    EligibilityIsExact(r, t, q);
  }
}
