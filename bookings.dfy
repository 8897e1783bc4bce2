/** The booking ledger: the stored list of booking records, the booking made after a
    successful payment, and the two ways a booking is cancelled. */
module Bookings {
  import opened Wrappers
  import opened Text
  import opened Clock
  import opened Search
  import Pricing
  import Validate

  /** One stored booking. Dates are calendar day numbers; `None` stands for a record
      without a date. `status` is `""` until a cancellation sets it. */
  datatype Booking = Booking(
    id: string,
    occasion: string,
    package: string,
    name: string,
    mobile: string,
    email: string,
    date: Option<int>,
    slotStart: string,
    slotEnd: string,
    createdAt: Instant,
    paymentId: string,
    status: string,
    cancelReason: Option<string>,
    cancelNote: Option<string>,
    refundAmount: Option<int>,
    cancelledAt: Option<Instant>)

  const UserCancelled: string := "cancelled_by_user"
  const AdminCancelled: string := "cancelled"

  /** `booking.status && booking.status.startsWith('cancelled')`. */
  predicate IsCancelled(status: string)
  {
    IsPrefix("cancelled", status)
  }

  /** Both cancelled statuses read as cancelled, and the empty status of a new
      booking does not. */
  lemma CancelledStatuses()
    ensures IsCancelled(UserCancelled) && IsCancelled(AdminCancelled) && !IsCancelled("")
    ensures !IsCancelled("confirmed")
  {
    assert UserCancelled[..9] == "cancelled";
    assert "confirmed"[..9][1] != "cancelled"[1];
  }

  /** Everything but the status and cancellation fields is the same in `a` and `b`. */
  predicate SameBookingData(a: Booking, b: Booking)
  {
    && a.id == b.id && a.occasion == b.occasion && a.package == b.package
    && a.name == b.name && a.mobile == b.mobile && a.email == b.email
    && a.date == b.date && a.slotStart == b.slotStart && a.slotEnd == b.slotEnd
    && a.createdAt == b.createdAt && a.paymentId == b.paymentId
  }

  /** The test `findIndex` applies: the booking has ticket id `id`. */
  function HasId(id: string): Booking -> bool
  {
    (b: Booking) => b.id == id
  }

  /** A booking belongs to the signed-in user when its email is set and equals the
      session's email ignoring case. */
  predicate Owns(b: Booking, user: string)
  {
    b.email != "" && SameIgnoringCase(b.email, user)
  }

  /** The user's bookings, in ledger order (`list.filter(...)`). */
  function Mine(list: seq<Booking>, user: string): (r: seq<Booking>)
    ensures forall b :: b in r <==> b in list && Owns(b, user)
    ensures |r| <= |list|
  {
    if list == [] then []
    else
      var rest := Mine(list[..|list| - 1], user);
      var b := list[|list| - 1];
      if Owns(b, user) then rest + [b] else rest
  }

  // ---------------------------------------------------------------------------
  // Cancellation policy

  /** How long before the event self-cancellation closes. */
  const CutoffMinutes: int := 3 * 60

  /** The event's start, `new Date(`${date}T${start}:00`)`: a stored `HH:MM` start on
      its day, or `24:00`, which the ECMAScript date-time format reads as the next
      midnight. Any other start gives an invalid date. */
  function EventStart(day: int, slotStart: string): Option<Instant>
  {
    if slotStart == "24:00" then Some(Instant(day + 1, 0))
    else
      match ParseHHMM(slotStart)
      case Some(t) => Some(At(day, t))
      case None => None
  }

  /** `new Date() > cutoff`, the cutoff being three hours before the event. An invalid
      start date makes the comparison false. */
  predicate PastCutoff(now: Instant, day: int, slotStart: string)
  {
    match EventStart(day, slotStart)
    case Some(start) => now.Stamp() > start.Stamp() - CutoffMinutes
    case None => false
  }

  /** The cutoff test crosses its threshold once: closed at some moment means closed
      at every later moment, and open means open at every earlier one. */
  lemma PastCutoffMonotone(early: Instant, late: Instant, day: int, slotStart: string)
    requires early.Stamp() <= late.Stamp()
    ensures PastCutoff(early, day, slotStart) ==> PastCutoff(late, day, slotStart)
    ensures !PastCutoff(late, day, slotStart) ==> !PastCutoff(early, day, slotStart)
  {
  }

  /** An 08:00 booking can be cancelled up to 05:00 that day, not a moment later. */
  lemma CutoffScenario(day: int)
    ensures !PastCutoff(Instant(day, 5 * 60), day, "08:00")
    ensures PastCutoff(Instant(day, 5 * 60 + 1), day, "08:00")
    ensures !PastCutoff(Instant(day - 1, 23 * 60), day, "08:00")
  {
    FormatParseRoundTrip(Time(8, 0));
    assert FormatHHMM(Time(8, 0)) == "08:00";
  }

  /** A stored start of `24:00` is the next midnight, so its cutoff is 21:00. */
  lemma MidnightStartScenario(day: int)
    ensures EventStart(day, "24:00") == Some(Instant(day + 1, 0))
    ensures !PastCutoff(Instant(day, 21 * 60), day, "24:00")
    ensures PastCutoff(Instant(day, 21 * 60 + 1), day, "24:00")
  {
  }

  // ---------------------------------------------------------------------------
  // Self-cancellation from the side menu

  datatype SelfCancelOutcome =
    | NotSignedIn        // no session
    | NoBookings         // the user owns no booking
    | NoTicketChosen     // the ticket prompt was dismissed or left empty
    | InvalidTicket      // no booking has that ticket id
    | AlreadyCancelled   // its status starts with "cancelled"
    | IncompleteBooking  // it has no date or no start time
    | TooLate            // the three-hour cutoff has passed
    | ReasonRequired     // the reason prompt was dismissed or blank
    | CancelledByUser

  /** The decision the self-cancel handler reaches, check by check in its order.
      The ticket is looked up in the whole ledger, not only among the user's bookings. */
  function SelfCancelDecision(list: seq<Booking>, session: Option<string>, chosen: Option<string>,
                              now: Instant, reason: Option<string>): SelfCancelOutcome
  {
    if session.None? || session.value == "" then NotSignedIn
    else if |Mine(list, session.value)| == 0 then NoBookings
    else if chosen.None? || chosen.value == "" then NoTicketChosen
    else
      var idx := FirstMatch(list, HasId(chosen.value));
      if idx < 0 then InvalidTicket
      else
        var b := list[idx];
        if IsCancelled(b.status) then AlreadyCancelled
        else if b.date.None? || b.slotStart == "" then IncompleteBooking
        else if PastCutoff(now, b.date.value, b.slotStart) then TooLate
        else if reason.None? || Trim(reason.value) == "" then ReasonRequired
        else CancelledByUser
  }

  /** The ledger after the booking at `idx` is cancelled by its user. */
  function CancelledByUserAt(list: seq<Booking>, idx: int, reason: string, now: Instant): (r: seq<Booking>)
    requires 0 <= idx < |list|
    ensures |r| == |list| && forall k :: 0 <= k < |r| && k != idx ==> r[k] == list[k]
    ensures SameBookingData(r[idx], list[idx])
    ensures r[idx].status == UserCancelled && r[idx].cancelReason == Some(Trim(reason))
    ensures r[idx].cancelledAt == Some(now)
    ensures r[idx].cancelNote == list[idx].cancelNote && r[idx].refundAmount == list[idx].refundAmount
  {
    var b := list[idx];
    list[idx := b.(status := UserCancelled, cancelReason := Some(Trim(reason)), cancelledAt := Some(now))]
  }

  /** The ledger the self-cancel handler leaves behind. The handler reads the clock
      twice: the cutoff is tested at `checkedAt`, before the reason prompt, and the
      booking is stamped at `committedAt`, after it is answered. */
  function SelfCancelled(list: seq<Booking>, session: Option<string>, chosen: Option<string>,
                         checkedAt: Instant, reason: Option<string>, committedAt: Instant): seq<Booking>
  {
    if SelfCancelDecision(list, session, chosen, checkedAt, reason) == CancelledByUser
    then CancelledByUserAt(list, FirstMatch(list, HasId(chosen.value)), reason.value, committedAt)
    else list
  }

  /** Self-cancellation leaves every booking's own data as it was. */
  lemma SelfCancelKeepsData(list: seq<Booking>, session: Option<string>, chosen: Option<string>,
                            checkedAt: Instant, reason: Option<string>, committedAt: Instant)
    ensures var r := SelfCancelled(list, session, chosen, checkedAt, reason, committedAt);
            |r| == |list| && forall i :: 0 <= i < |list| ==> SameBookingData(r[i], list[i])
  {
    if SelfCancelDecision(list, session, chosen, checkedAt, reason) == CancelledByUser {
      var j := FirstMatch(list, HasId(chosen.value));
      var r := CancelledByUserAt(list, j, reason.value, committedAt);
      assert SelfCancelled(list, session, chosen, checkedAt, reason, committedAt) == r;
    }
  }

  /** The cutoff holds when the reason prompt opens, not when it is answered: a reason
      asked for at 04:59 for an 08:00 booking and given at 09:00 still cancels it,
      after the event has started, stamped 09:00. */
  lemma LateCommitScenario(b: Booking, day: int, reason: string)
    requires b.email != "" && b.id != "" && b.status == "" && b.date == Some(day) && b.slotStart == "08:00"
    requires Trim(reason) != ""
    ensures var checkedAt, committedAt := Instant(day, 4 * 60 + 59), Instant(day, 9 * 60);
            var r := SelfCancelled([b], Some(b.email), Some(b.id), checkedAt, Some(reason), committedAt);
            && |r| == 1 && r[0].status == UserCancelled && r[0].cancelledAt == Some(committedAt)
            && EventStart(day, b.slotStart) == Some(Instant(day, 8 * 60))
            && committedAt.Stamp() > Instant(day, 8 * 60).Stamp()
  {
    var checkedAt, committedAt := Instant(day, 4 * 60 + 59), Instant(day, 9 * 60);
    var list := [b];
    FormatParseRoundTrip(Time(8, 0));
    assert FormatHHMM(Time(8, 0)) == "08:00";
    assert EventStart(day, b.slotStart) == Some(Instant(day, 8 * 60));
    assert !PastCutoff(checkedAt, day, b.slotStart);
    assert !IsCancelled(b.status);
    assert Owns(b, b.email);
    assert FirstWithId(list, b.id, 0) && Cancellable(list[0], checkedAt);
    PassedChecksAccepted(list, Some(b.email), Some(b.id), checkedAt, Some(reason));
    FirstMatchUnique(list, HasId(b.id), 0);
    assert SelfCancelled(list, Some(b.email), Some(b.id), checkedAt, Some(reason), committedAt)
           == CancelledByUserAt(list, 0, reason, committedAt);
  }

  /** A signed-in user who owns one booking can cancel a booking that is not theirs:
      the ticket is looked up in the whole ledger. */
  lemma CancelsAnotherUsersBooking(mine: Booking, other: Booking, now: Instant, reason: string)
    requires Owns(mine, mine.email) && !Owns(other, mine.email)
    requires other.id != "" && mine.id != other.id && Cancellable(other, now)
    requires Trim(reason) != ""
    ensures SelfCancelDecision([mine, other], Some(mine.email), Some(other.id), now, Some(reason)) == CancelledByUser
  {
    var list := [mine, other];
    assert list[0] == mine;
    assert FirstWithId(list, other.id, 1) && Cancellable(list[1], now);
    PassedChecksAccepted(list, Some(mine.email), Some(other.id), now, Some(reason));
  }

  /** `list[i]` is the first booking with ticket id `id`. */
  predicate FirstWithId(list: seq<Booking>, id: string, i: int)
  {
    0 <= i < |list| && list[i].id == id && forall k :: 0 <= k < i ==> list[k].id != id
  }

  /** The checks a found booking must pass before the reason is asked for. */
  predicate Cancellable(b: Booking, now: Instant)
  {
    !IsCancelled(b.status) && b.date.Some? && b.slotStart != "" && !PastCutoff(now, b.date.value, b.slotStart)
  }

  lemma HasBookingsIff(list: seq<Booking>, user: string)
    ensures |Mine(list, user)| != 0 <==> exists b :: b in list && Owns(b, user)
  {
    var mine := Mine(list, user);
    if |mine| != 0 {
      assert mine[0] in mine;
    }
  }

  lemma FirstWithIdIsFirstMatch(list: seq<Booking>, id: string)
    ensures FirstMatch(list, HasId(id)) >= 0 <==> exists i :: FirstWithId(list, id, i)
    ensures forall i :: FirstWithId(list, id, i) ==> i == FirstMatch(list, HasId(id))
  {
    forall i | FirstWithId(list, id, i) ensures i == FirstMatch(list, HasId(id)) {
      FirstMatchUnique(list, HasId(id), i);
    }
    var idx := FirstMatch(list, HasId(id));
    if idx >= 0 {
      assert FirstWithId(list, id, idx);
    }
  }

  /** Self-cancellation goes through exactly when every check passes. A signed-in user
      with at least one booking of their own can cancel any ticket id of the ledger. */
  lemma SelfCancelAcceptedIff(list: seq<Booking>, session: Option<string>, chosen: Option<string>,
                              now: Instant, reason: Option<string>)
    ensures SelfCancelDecision(list, session, chosen, now, reason) == CancelledByUser <==>
      && session.Some? && (exists b :: b in list && Owns(b, session.value))
      && chosen.Some? && chosen.value != ""
      && (exists i :: FirstWithId(list, chosen.value, i) && Cancellable(list[i], now))
      && reason.Some? && Trim(reason.value) != ""
  {
    if SelfCancelDecision(list, session, chosen, now, reason) == CancelledByUser {
      AcceptedUserHasBookings(list, session, chosen, now, reason);
      AcceptedBookingPassedChecks(list, session, chosen, now, reason);
    }
    if && session.Some? && (exists b :: b in list && Owns(b, session.value))
       && chosen.Some? && chosen.value != ""
       && (exists i :: FirstWithId(list, chosen.value, i) && Cancellable(list[i], now))
       && reason.Some? && Trim(reason.value) != "" {
      PassedChecksAccepted(list, session, chosen, now, reason);
    }
  }

  lemma AcceptedUserHasBookings(list: seq<Booking>, session: Option<string>, chosen: Option<string>,
                                now: Instant, reason: Option<string>)
    requires SelfCancelDecision(list, session, chosen, now, reason) == CancelledByUser
    ensures session.Some? && exists b :: b in list && Owns(b, session.value)
  {
    HasBookingsIff(list, session.value);
  }

  lemma AcceptedBookingPassedChecks(list: seq<Booking>, session: Option<string>, chosen: Option<string>,
                                    now: Instant, reason: Option<string>)
    requires SelfCancelDecision(list, session, chosen, now, reason) == CancelledByUser
    ensures chosen.Some? && chosen.value != ""
    ensures exists i :: FirstWithId(list, chosen.value, i) && Cancellable(list[i], now)
    ensures reason.Some? && Trim(reason.value) != ""
  {
    var idx := FirstMatch(list, HasId(chosen.value));
    assert FirstWithId(list, chosen.value, idx) && Cancellable(list[idx], now);
  }

  lemma PassedChecksAccepted(list: seq<Booking>, session: Option<string>, chosen: Option<string>,
                             now: Instant, reason: Option<string>)
    requires session.Some? && exists b :: b in list && Owns(b, session.value)
    requires chosen.Some? && chosen.value != ""
    requires exists i :: FirstWithId(list, chosen.value, i) && Cancellable(list[i], now)
    requires reason.Some? && Trim(reason.value) != ""
    ensures SelfCancelDecision(list, session, chosen, now, reason) == CancelledByUser
  {
    var b :| b in list && Owns(b, session.value);
    OwnerIsNamed(b, session.value);
    HasBookingsIff(list, session.value);
    var i :| FirstWithId(list, chosen.value, i) && Cancellable(list[i], now);
    FirstMatchUnique(list, HasId(chosen.value), i);
    AcceptedAt(list, session, chosen, now, reason, i);
  }

  /** The decision once each check is known to pass at the found ticket `i`. */
  lemma AcceptedAt(list: seq<Booking>, session: Option<string>, chosen: Option<string>,
                   now: Instant, reason: Option<string>, i: int)
    requires session.Some? && session.value != "" && |Mine(list, session.value)| != 0
    requires chosen.Some? && chosen.value != "" && i == FirstMatch(list, HasId(chosen.value))
    requires 0 <= i < |list| && Cancellable(list[i], now)
    requires reason.Some? && Trim(reason.value) != ""
    ensures SelfCancelDecision(list, session, chosen, now, reason) == CancelledByUser
  {
    var b := list[i];
    assert !IsCancelled(b.status) && b.date.Some? && b.slotStart != "";
    assert !PastCutoff(now, b.date.value, b.slotStart);
  }

  /** Only a non-empty user can own a booking. */
  lemma OwnerIsNamed(b: Booking, user: string)
    requires Owns(b, user)
    ensures user != ""
  {
    assert |ToLower(b.email)| == |b.email| > 0;
  }

  /** Only the moment matters for the cutoff: an accepted cancellation would also
      have been accepted earlier, and one rejected as too late stays rejected later. */
  lemma SelfCancelMonotoneInTime(list: seq<Booking>, session: Option<string>, chosen: Option<string>,
                                 early: Instant, late: Instant, reason: Option<string>)
    requires early.Stamp() <= late.Stamp()
    ensures SelfCancelDecision(list, session, chosen, late, reason) == CancelledByUser ==>
              SelfCancelDecision(list, session, chosen, early, reason) == CancelledByUser
    ensures SelfCancelDecision(list, session, chosen, early, reason) == TooLate ==>
              SelfCancelDecision(list, session, chosen, late, reason) == TooLate
  {
    if session.Some? && session.value != "" && |Mine(list, session.value)| != 0 && chosen.Some? && chosen.value != "" {
      var idx := FirstMatch(list, HasId(chosen.value));
      if idx >= 0 && list[idx].date.Some? {
        PastCutoffMonotone(early, late, list[idx].date.value, list[idx].slotStart);
      }
    }
  }

  // ---------------------------------------------------------------------------
  // Cancellation from the admin dashboard

  /** The ledger after the admin cancels ticket `id`: the first booking with that id
      is marked cancelled with the note, refund and time, whatever its status was. */
  function AdminCancelledAt(list: seq<Booking>, id: string, note: string, refund: int, now: Instant): (r: seq<Booking>)
    ensures |r| == |list|
  {
    var idx := FirstMatch(list, HasId(id));
    if idx < 0 then list
    else list[idx := list[idx].(status := AdminCancelled, cancelNote := Some(note),
                                refundAmount := Some(refund), cancelledAt := Some(now))]
  }

  /** Admin cancellation leaves every booking's own data as it was. */
  lemma AdminCancelKeepsData(list: seq<Booking>, id: string, note: string, refund: int, now: Instant)
    ensures var r := AdminCancelledAt(list, id, note, refund, now);
            forall i :: 0 <= i < |list| ==> SameBookingData(r[i], list[i])
  {
    var r := AdminCancelledAt(list, id, note, refund, now);
    var idx := FirstMatch(list, HasId(id));
    forall i | 0 <= i < |list| ensures SameBookingData(r[i], list[i]) {
      if 0 <= idx && i != idx {
        assert r[i] == list[i];
      }
    }
  }

  /** Admin cancellation changes only the first booking with the id, sets its
      status, note, refund and time, and leaves an unknown id's ledger unchanged. */
  lemma AdminCancelEffect(list: seq<Booking>, id: string, note: string, refund: int, now: Instant)
    ensures var r := AdminCancelledAt(list, id, note, refund, now);
      && ((forall b :: b in list ==> b.id != id) ==> r == list)
      && forall i :: 0 <= i < |list| ==>
           if list[i].id == id && forall k :: 0 <= k < i ==> list[k].id != id then
             && SameBookingData(r[i], list[i]) && r[i].status == AdminCancelled
             && r[i].cancelNote == Some(note) && r[i].refundAmount == Some(refund)
             && r[i].cancelledAt == Some(now) && r[i].cancelReason == list[i].cancelReason
           else r[i] == list[i]
  {
    var idx := FirstMatch(list, HasId(id));
    forall i | 0 <= i < |list| && list[i].id == id && (forall k :: 0 <= k < i ==> list[k].id != id)
      ensures i == idx
    {
      FirstMatchUnique(list, HasId(id), i);
    }
  }

  /** The dashboard's cancel persists again and again: cancelling twice leaves what
      the second cancellation alone would have left. */
  lemma AdminCancelLastWriteWins(list: seq<Booking>, id: string, note1: string, refund1: int, t1: Instant,
                                 note2: string, refund2: int, t2: Instant)
    ensures AdminCancelledAt(AdminCancelledAt(list, id, note1, refund1, t1), id, note2, refund2, t2)
            == AdminCancelledAt(list, id, note2, refund2, t2)
  {
    var idx := FirstMatch(list, HasId(id));
    if idx >= 0 {
      var once := AdminCancelledAt(list, id, note1, refund1, t1);
      FirstMatchUnique(once, HasId(id), idx);
    }
  }

  // ---------------------------------------------------------------------------
  // Booking after payment

  /** The details form: name, mobile and email as typed, the chosen date, and the value
      of the checked slot radio button, if any. */
  datatype DetailsForm = DetailsForm(name: string, mobile: string, email: string,
                                     date: Option<int>, slotValue: Option<string>)

  /** The occasion and package carried over from the booking page. */
  datatype Selection = Selection(occasion: Option<string>, selectedPackage: Option<string>)

  /** How the payment widget ends once it is open. */
  datatype WidgetOutcome = Approved(paymentId: string) | Dismissed | WidgetFailed

  datatype SubmitOutcome = InvalidDetails | PaymentFailed | Booked(booking: Booking)

  /** The part of `s` before its first `-`. */
  function BeforeDash(s: string): (r: string)
    ensures IsPrefix(r, s) && '-' !in r && (|r| < |s| ==> s[|r|] == '-')
  {
    if s == [] || s[0] == '-' then [] else [s[0]] + BeforeDash(s[1..])
  }

  /** `parts[0]` and `parts[1]` of `value.split('-')` when `value` has a `-`, else empty. */
  function SplitSlot(value: Option<string>): (string, string)
  {
    if value.Some? && '-' in value.value then
      var v := value.value;
      var start := BeforeDash(v);
      (start, BeforeDash(v[|start| + 1..]))
    else ("", "")
  }

  /** Splitting the radio value of a slot gives back its stored start and end. */
  lemma SplitSlotKey(start: Time, end: Time)
    requires start.Valid() && end.Valid()
    ensures SplitSlot(Some(SlotKey(start, end))) == (FormatHHMM(start), FormatHHMM(end))
  {
    var v := SlotKey(start, end);
    SlotKeyParts(start, end);
    FormatParseRoundTrip(start);
    FormatParseRoundTrip(end);
    assert v[5] == '-';
    BeforeDashOf(FormatHHMM(start), v[5..]);
    assert v[6..] == FormatHHMM(end) + [];
    BeforeDashOf(FormatHHMM(end), []);
  }

  lemma {:induction false} BeforeDashOf(a: string, rest: string)
    requires '-' !in a && (rest == [] || rest[0] == '-')
    ensures BeforeDash(a + rest) == a
  {
    if a != [] {
      assert (a + rest)[1..] == a[1..] + rest;
      BeforeDashOf(a[1..], rest);
    }
  }

  /** The checks the details form makes before opening the payment widget. */
  predicate DetailsValid(f: DetailsForm)
  {
    var (start, end) := SplitSlot(f.slotValue);
    && Trim(f.name) != ""
    && Validate.IsTenDigits(Trim(f.mobile))
    && Validate.IsEmail(Trim(f.email))
    && f.date.Some?
    && start != "" && end != ""
  }

  /** `initiatePayment`: the payment reference when the gateway takes the payment. */
  function PaymentReference(gatewayLoaded: bool, sel: Selection, widget: WidgetOutcome): (r: Option<string>)
    ensures r.Some? <==> gatewayLoaded && Pricing.PackageAmountRupees(sel.selectedPackage) != 0 && widget.Approved?
    ensures r.Some? ==> r.value == widget.paymentId
  {
    match Pricing.CheckoutAmount(gatewayLoaded, sel.selectedPackage)
    case Err(_) => None
    case Ok(_) => if widget.Approved? then Some(widget.paymentId) else None
  }

  /** The record stored after a successful payment. */
  function NewBooking(id: string, f: DetailsForm, sel: Selection, paymentId: string, now: Instant): Booking
  {
    var (start, end) := SplitSlot(f.slotValue);
    Booking(id, if sel.occasion.Some? then sel.occasion.value else "",
            if sel.selectedPackage.Some? then sel.selectedPackage.value else "",
            Trim(f.name), Trim(f.mobile), Trim(f.email), f.date, start, end,
            now, paymentId, "", None, None, None, None)
  }

  /** What submitting the details form does, given how the payment ends. The ledger
      plays no part: nothing checks the slot against existing bookings. */
  function SubmitOutcomeOf(f: DetailsForm, sel: Selection, gatewayLoaded: bool, widget: WidgetOutcome,
                           id: string, now: Instant): (r: SubmitOutcome)
    ensures r.Booked? <==> DetailsValid(f) && PaymentReference(gatewayLoaded, sel, widget).Some?
    ensures r.Booked? ==> r.booking.id == id && r.booking.status == "" && r.booking.date == f.date
                          && r.booking.slotStart != "" && r.booking.slotEnd != "" && r.booking.email == Trim(f.email)
  {
    if !DetailsValid(f) then InvalidDetails
    else match PaymentReference(gatewayLoaded, sel, widget)
      case None => PaymentFailed
      case Some(ref) => Booked(NewBooking(id, f, sel, ref, now))
  }

  /** Booking the same slot twice is accepted both times, and leaves two confirmed
      bookings for one date and slot. */
  lemma NoConflictCheck(list: seq<Booking>, f: DetailsForm, sel: Selection, ref: string,
                        id1: string, id2: string, t1: Instant, t2: Instant)
    requires SubmitOutcomeOf(f, sel, true, Approved(ref), id1, t1).Booked?
    ensures var b1 := SubmitOutcomeOf(f, sel, true, Approved(ref), id1, t1).booking;
            var o2 := SubmitOutcomeOf(f, sel, true, Approved(ref), id2, t2);
            && o2.Booked?
            && var ledger := list + [b1, o2.booking];
            && ledger[|list|].date == ledger[|list| + 1].date
            && ledger[|list|].slotStart == ledger[|list| + 1].slotStart
            && ledger[|list|].slotEnd == ledger[|list| + 1].slotEnd
            && !IsCancelled(ledger[|list|].status) && !IsCancelled(ledger[|list| + 1].status)
  {
  }

  /** A booking made by a user shows up among that user's bookings straight away. */
  lemma BookingListedForOwner(list: seq<Booking>, b: Booking)
    requires b.email != ""
    ensures b in Mine(list + [b], b.email)
    ensures Mine(list + [b], b.email) == Mine(list, b.email) + [b]
  {
    assert (list + [b])[..|list|] == list;
  }

  // ---------------------------------------------------------------------------
  // The ledger as the pages change it

  class Ledger {
    var bookings: seq<Booking>

    constructor (stored: seq<Booking>)
      ensures bookings == stored
    {
      bookings := stored;
    }

    /** Submitting the details form: validate, pay, and append the new booking on
        success. */
    method Submit(f: DetailsForm, sel: Selection, gatewayLoaded: bool, widget: WidgetOutcome,
                  id: string, now: Instant) returns (outcome: SubmitOutcome)
      modifies this
      ensures outcome == SubmitOutcomeOf(f, sel, gatewayLoaded, widget, id, now)
      ensures bookings == if outcome.Booked? then old(bookings) + [outcome.booking] else old(bookings)
    {
      if !DetailsValid(f) {
        return InvalidDetails;
      }
      var paid := PaymentReference(gatewayLoaded, sel, widget);
      if paid.None? {
        return PaymentFailed;
      }
      var booking := NewBooking(id, f, sel, paid.value, now);
      bookings := bookings + [booking];
      outcome := Booked(booking);
    }

    /** The side menu's "cancel booking": look the ticket up, check it, and mark it
        cancelled by the user. */
    method CancelByUser(session: Option<string>, chosen: Option<string>, checkedAt: Instant,
                        reason: Option<string>, committedAt: Instant)
      returns (outcome: SelfCancelOutcome)
      modifies this
      ensures outcome == SelfCancelDecision(old(bookings), session, chosen, checkedAt, reason)
      ensures bookings == SelfCancelled(old(bookings), session, chosen, checkedAt, reason, committedAt)
      ensures outcome != CancelledByUser ==> bookings == old(bookings)
    {
      if session.None? || session.value == "" {
        return NotSignedIn;
      }
      if |Mine(bookings, session.value)| == 0 {
        return NoBookings;
      }
      if chosen.None? || chosen.value == "" {
        return NoTicketChosen;
      }
      var idx := FindFirst(bookings, HasId(chosen.value));
      if idx < 0 {
        return InvalidTicket;
      }
      var b := bookings[idx];
      if IsCancelled(b.status) {
        return AlreadyCancelled;
      }
      if b.date.None? || b.slotStart == "" {
        return IncompleteBooking;
      }
      if PastCutoff(checkedAt, b.date.value, b.slotStart) {
        return TooLate;
      }
      if reason.None? || Trim(reason.value) == "" {
        return ReasonRequired;
      }
      bookings := bookings[idx := b.(status := UserCancelled, cancelReason := Some(Trim(reason.value)),
                                     cancelledAt := Some(committedAt))];
      outcome := CancelledByUser;
    }

    /** The dashboard's cancel button: with a note and a refund amount given (`None`
        for a dismissed prompt), mark the first booking with the id cancelled. */
    method CancelByAdmin(id: string, note: Option<string>, refund: Option<int>, now: Instant)
      returns (found: bool)
      modifies this
      ensures found <==> note.Some? && refund.Some? && exists b :: b in old(bookings) && b.id == id
      ensures bookings == if note.Some? && refund.Some?
                          then AdminCancelledAt(old(bookings), id, note.value, refund.value, now)
                          else old(bookings)
    {
      if note.None? || refund.None? {
        return false;
      }
      var idx := FindFirst(bookings, HasId(id));
      found := idx >= 0;
      if found {
        bookings := bookings[idx := bookings[idx].(status := AdminCancelled, cancelNote := note,
                                                   refundAmount := refund, cancelledAt := Some(now))];
      }
    }

    /** "Clear all bookings" on the dashboard. */
    method Clear()
      modifies this
      ensures bookings == []
    {
      bookings := [];
    }
  }
}
