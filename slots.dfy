/** The slot grid of the details page: the hourly starts still open on the chosen date,
    each with its end time and whether an existing booking locks it. */
module Slots {
  import opened Wrappers
  import opened Text
  import opened Clock
  import opened Search
  import opened Bookings

  /** The hourly starts the grid offers, 08:00 to 20:00. */
  const Starts: seq<Time> :=
    [Time(8, 0), Time(9, 0), Time(10, 0), Time(11, 0), Time(12, 0), Time(13, 0), Time(14, 0),
     Time(15, 0), Time(16, 0), Time(17, 0), Time(18, 0), Time(19, 0), Time(20, 0)]

  /** One radio button of the grid: its start, its end, and whether it is disabled. */
  datatype SlotOffer = SlotOffer(start: Time, end: Time, locked: bool)

  predicate AllValid(c: seq<Time>)
  {
    forall k :: 0 <= k < |c| ==> c[k].Valid()
  }

  predicate Ascending(c: seq<Time>)
  {
    forall i, j :: 0 <= i < j < |c| ==> c[i].Minutes() < c[j].Minutes()
  }

  lemma StartsWellFormed()
    ensures |Starts| == 13 && AllValid(Starts) && Ascending(Starts)
    ensures forall k :: 0 <= k < |Starts| ==> Starts[k] == Time(8 + k, 0)
  {
  }

  /** The keys `slotStart-slotEnd` of the bookings on the chosen date that have both
      times; no date chosen, nothing locked. The booking's status plays no part. */
  function LockedKeys(bookings: seq<Booking>, date: Option<int>): set<string>
  {
    set b | b in bookings && date.Some? && b.date == date && b.slotStart != "" && b.slotEnd != ""
          :: b.slotStart + "-" + b.slotEnd
  }

  /** The `forEach` that fills the `locked` set. */
  method CollectLocked(bookings: seq<Booking>, date: Option<int>) returns (locked: set<string>)
    ensures locked == LockedKeys(bookings, date)
  {
    locked := {};
    var i := 0;
    while i < |bookings|
      invariant 0 <= i <= |bookings|
      invariant locked == LockedKeys(bookings[..i], date)
    {
      var b := bookings[i];
      assert bookings[..i + 1] == bookings[..i] + [b];
      if date.Some? && b.date == date && b.slotStart != "" && b.slotEnd != "" {
        locked := locked + {b.slotStart + "-" + b.slotEnd};
      }
      i := i + 1;
    }
    assert bookings[..i] == bookings;
  }

  /** A start is shown unless the chosen date is today and the start is not later than now. */
  predicate Visible(date: Option<int>, now: Instant, t: Time)
    requires t.Valid()
  {
    !(date.Some? && date.value == now.day && At(date.value, t).Stamp() <= now.Stamp())
  }

  /** The radio button for start `t`. */
  function OfferFor(t: Time, hours: nat, locked: set<string>): SlotOffer
    requires t.Valid()
  {
    var e := EndTime(t, hours);
    SlotOffer(t, e, SlotKey(t, e) in locked)
  }

  /** The buttons for the candidate starts `cands`, in their order. */
  function OffersOf(cands: seq<Time>, hours: nat, date: Option<int>, now: Instant, locked: set<string>): (r: seq<SlotOffer>)
    requires AllValid(cands)
    ensures |r| <= |cands|
    ensures forall i :: 0 <= i < |r| ==> r[i].start.Valid() && r[i].end.Valid()
    decreases |cands|
  {
    if cands == [] then []
    else
      var front := OffersOf(cands[..|cands| - 1], hours, date, now, locked);
      var t := cands[|cands| - 1];
      if Visible(date, now, t) then front + [OfferFor(t, hours, locked)] else front
  }

  /** The grid `renderSlots` draws. */
  function Offers(hours: nat, date: Option<int>, now: Instant, bookings: seq<Booking>): (r: seq<SlotOffer>)
    ensures |r| <= 13
    ensures forall i :: 0 <= i < |r| ==> r[i].start.Valid() && r[i].end.Valid()
  {
    StartsWellFormed();
    OffersOf(Starts, hours, date, now, LockedKeys(bookings, date))
  }

  /** The loop of `renderSlots` over the candidate starts, skipping those already
      past today. */
  method DrawOffers(cands: seq<Time>, hours: nat, date: Option<int>, now: Instant, locked: set<string>)
    returns (offers: seq<SlotOffer>)
    requires AllValid(cands)
    ensures offers == OffersOf(cands, hours, date, now, locked)
  {
    offers := [];
    var i := 0;
    while i < |cands|
      invariant 0 <= i <= |cands|
      invariant offers == OffersOf(cands[..i], hours, date, now, locked)
    {
      var start := cands[i];
      assert cands[..i + 1][..i] == cands[..i];
      if Visible(date, now, start) {
        var end := EndTime(start, hours);
        offers := offers + [SlotOffer(start, end, SlotKey(start, end) in locked)];
      }
      i := i + 1;
    }
    assert cands[..i] == cands;
  }

  /** `renderSlots`: collect the locked keys of the chosen date, then draw the catalogue. */
  method RenderSlots(hours: nat, date: Option<int>, now: Instant, bookings: seq<Booking>)
    returns (offers: seq<SlotOffer>)
    ensures offers == Offers(hours, date, now, bookings)
  {
    StartsWellFormed();
    var locked := CollectLocked(bookings, date);
    offers := DrawOffers(Starts, hours, date, now, locked);
  }

  // ---------------------------------------------------------------------------
  // What the grid contains

  /** Every button is a visible candidate. */
  lemma {:induction false} OffersOfSound(cands: seq<Time>, hours: nat, date: Option<int>, now: Instant,
                                         locked: set<string>, r: seq<SlotOffer>)
    requires AllValid(cands) && r == OffersOf(cands, hours, date, now, locked)
    ensures forall i :: 0 <= i < |r| ==> r[i].start in cands && Visible(date, now, r[i].start)
    decreases |cands|
  {
    if cands != [] {
      var front := cands[..|cands| - 1];
      var r0 := OffersOf(front, hours, date, now, locked);
      OffersOfSound(front, hours, date, now, locked, r0);
      forall i | 0 <= i < |r|
        ensures r[i].start in cands && Visible(date, now, r[i].start)
      {
        if i < |r0| {
          assert r[i] == r0[i];
          var k :| 0 <= k < |front| && front[k] == r0[i].start;
          assert cands[k] == front[k];
        }
      }
    }
  }

  /** Every button is drawn for its start: it ends `hours` later and is locked when
      its key is. */
  lemma {:induction false} OffersOfShape(cands: seq<Time>, hours: nat, date: Option<int>, now: Instant,
                                         locked: set<string>, r: seq<SlotOffer>)
    requires AllValid(cands) && r == OffersOf(cands, hours, date, now, locked)
    ensures forall i :: 0 <= i < |r| ==> r[i] == OfferFor(r[i].start, hours, locked)
    decreases |cands|
  {
    if cands != [] {
      var front := cands[..|cands| - 1];
      var r0 := OffersOf(front, hours, date, now, locked);
      OffersOfShape(front, hours, date, now, locked, r0);
      forall i | 0 <= i < |r0| ensures r[i] == OfferFor(r[i].start, hours, locked) {
        assert r[i] == r0[i];
      }
    }
  }

  /** Every visible candidate has a button. */
  lemma {:induction false} OffersOfComplete(cands: seq<Time>, hours: nat, date: Option<int>, now: Instant,
                                            locked: set<string>, r: seq<SlotOffer>, t: Time)
    requires AllValid(cands) && r == OffersOf(cands, hours, date, now, locked)
    requires t in cands && t.Valid() && Visible(date, now, t)
    ensures exists i :: 0 <= i < |r| && r[i].start == t
    decreases |cands|
  {
    var front := cands[..|cands| - 1];
    if t == cands[|cands| - 1] {
      assert r[|r| - 1].start == t;
    } else {
      assert cands == front + [cands[|cands| - 1]];
      assert t in front;
      var r0 := OffersOf(front, hours, date, now, locked);
      OffersOfComplete(front, hours, date, now, locked, r0, t);
      var i :| 0 <= i < |r0| && r0[i].start == t;
      assert r[i].start == t;
    }
  }

  /** Buttons keep the order of ascending candidates. */
  lemma {:induction false} OffersOfAscending(cands: seq<Time>, hours: nat, date: Option<int>, now: Instant,
                                             locked: set<string>, r: seq<SlotOffer>)
    requires AllValid(cands) && Ascending(cands) && r == OffersOf(cands, hours, date, now, locked)
    ensures forall i, j :: 0 <= i < j < |r| ==> r[i].start.Minutes() < r[j].start.Minutes()
    decreases |cands|
  {
    if cands != [] {
      var front := cands[..|cands| - 1];
      var last := cands[|cands| - 1];
      var r0 := OffersOf(front, hours, date, now, locked);
      OffersOfAscending(front, hours, date, now, locked, r0);
      OffersOfSound(front, hours, date, now, locked, r0);
      forall i | 0 <= i < |r0| ensures r0[i].start.Minutes() < last.Minutes() {
        var k :| 0 <= k < |front| && front[k] == r0[i].start;
        assert cands[k] == front[k];
      }
    }
  }

  /** On any day but today every candidate gets a button, in order. */
  lemma {:induction false} OffersOfAll(cands: seq<Time>, hours: nat, date: Option<int>, now: Instant,
                                       locked: set<string>, r: seq<SlotOffer>)
    requires AllValid(cands) && r == OffersOf(cands, hours, date, now, locked)
    requires date.None? || date.value != now.day
    ensures |r| == |cands| && forall i :: 0 <= i < |r| ==> r[i].start == cands[i]
    decreases |cands|
  {
    if cands != [] {
      var front, t := cands[..|cands| - 1], cands[|cands| - 1];
      var r0 := OffersOf(front, hours, date, now, locked);
      OffersOfAll(front, hours, date, now, locked, r0);
      assert Visible(date, now, t);
      assert r == r0 + [OfferFor(t, hours, locked)];
      assert forall i :: 0 <= i < |r0| ==> r[i] == r0[i] && front[i] == cands[i];
    }
  }

  /** The times of the buttons do not depend on which keys are locked. */
  lemma {:induction false} OffersOfTimesIgnoreLocks(cands: seq<Time>, hours: nat, date: Option<int>, now: Instant,
                                                    locked1: set<string>, locked2: set<string>,
                                                    r1: seq<SlotOffer>, r2: seq<SlotOffer>)
    requires AllValid(cands)
    requires r1 == OffersOf(cands, hours, date, now, locked1) && r2 == OffersOf(cands, hours, date, now, locked2)
    ensures |r1| == |r2| && forall i :: 0 <= i < |r1| ==> r1[i].start == r2[i].start && r1[i].end == r2[i].end
    decreases |cands|
  {
    if cands != [] {
      var front := cands[..|cands| - 1];
      OffersOfTimesIgnoreLocks(front, hours, date, now, locked1, locked2,
                               OffersOf(front, hours, date, now, locked1), OffersOf(front, hours, date, now, locked2));
    }
  }

  /** The grid is the catalogue in ascending order minus the starts already past
      today: a start is offered exactly when it is a catalogue start still open. */
  lemma OfferedStarts(hours: nat, date: Option<int>, now: Instant, bookings: seq<Booking>, r: seq<SlotOffer>)
    requires r == Offers(hours, date, now, bookings)
    ensures forall i, j :: 0 <= i < j < |r| ==> r[i].start.Minutes() < r[j].start.Minutes()
    ensures forall i :: 0 <= i < |r| ==> r[i].start in Starts
    ensures forall t :: t in Starts ==> ((exists i :: 0 <= i < |r| && r[i].start == t) <==> Visible(date, now, t))
  {
    StartsWellFormed();
    var locked := LockedKeys(bookings, date);
    OffersOfSound(Starts, hours, date, now, locked, r);
    OffersOfAscending(Starts, hours, date, now, locked, r);
    forall t | t in Starts && Visible(date, now, t) ensures exists i :: 0 <= i < |r| && r[i].start == t {
      OffersOfComplete(Starts, hours, date, now, locked, r, t);
    }
  }

  /** On today's date exactly the starts later than now are offered. */
  lemma OfferedToday(hours: nat, now: Instant, bookings: seq<Booking>, r: seq<SlotOffer>, t: Time)
    requires r == Offers(hours, Some(now.day), now, bookings) && t in Starts
    ensures t.Valid()
    ensures (exists i :: 0 <= i < |r| && r[i].start == t) <==> At(now.day, t).Stamp() > now.Stamp()
  {
    StartsWellFormed();
    OfferedStarts(hours, Some(now.day), now, bookings, r);
  }

  /** With no date, or a date other than today, all thirteen starts are offered. */
  lemma AllOfferedOnOtherDays(hours: nat, date: Option<int>, now: Instant, bookings: seq<Booking>, r: seq<SlotOffer>)
    requires r == Offers(hours, date, now, bookings)
    requires date.None? || date.value != now.day
    ensures |r| == 13 && forall i :: 0 <= i < 13 ==> r[i].start == Time(8 + i, 0)
  {
    StartsWellFormed();
    OffersOfAll(Starts, hours, date, now, LockedKeys(bookings, date), r);
  }

  /** Each button ends `hours` later on the clock; a 1- or 2-hour slot from the
      catalogue ends the same day, so the hour simply grows by `hours`. */
  lemma OfferEnds(hours: nat, date: Option<int>, now: Instant, bookings: seq<Booking>, r: seq<SlotOffer>)
    requires r == Offers(hours, date, now, bookings)
    ensures forall i :: 0 <= i < |r| ==>
              && r[i].end == EndTime(r[i].start, hours)
              && r[i].end.hour == (r[i].start.hour + hours) % 24 && r[i].end.minute == r[i].start.minute
              && (hours <= 2 ==> r[i].end.hour == r[i].start.hour + hours)
  {
    var locked := LockedKeys(bookings, date);
    StartsWellFormed();
    OffersOfSound(Starts, hours, date, now, locked, r);
    OffersOfShape(Starts, hours, date, now, locked, r);
    forall i | 0 <= i < |r|
      ensures && r[i].end == EndTime(r[i].start, hours)
              && r[i].end.hour == (r[i].start.hour + hours) % 24 && r[i].end.minute == r[i].start.minute
              && (hours <= 2 ==> r[i].end.hour == r[i].start.hour + hours)
    {
      assert r[i] == OfferFor(r[i].start, hours, locked);
      CatalogueEnd(r[i].start, hours);
    }
  }

  /** A catalogue start is at the latest 20:00, so a slot of up to two hours ends the
      same day. */
  lemma CatalogueEnd(t: Time, hours: nat)
    requires t in Starts
    ensures EndTime(t, hours).hour == (t.hour + hours) % 24
    ensures hours <= 2 ==> EndTime(t, hours).hour == t.hour + hours
  {
    StartsWellFormed();
    var k :| 0 <= k < |Starts| && Starts[k] == t;
    assert 8 <= t.hour <= 20;
  }

  /** A button is locked exactly when a booking on the chosen date, with both times
      set, has its `start-end` key; nothing is locked when no date is chosen. */
  lemma OfferLockedIff(hours: nat, date: Option<int>, now: Instant, bookings: seq<Booking>, r: seq<SlotOffer>)
    requires r == Offers(hours, date, now, bookings)
    ensures forall i :: 0 <= i < |r| ==>
              (r[i].locked <==>
                exists b :: b in bookings && date.Some? && b.date == date && b.slotStart != "" && b.slotEnd != ""
                            && b.slotStart + "-" + b.slotEnd == SlotKey(r[i].start, r[i].end))
    ensures date.None? ==> forall i :: 0 <= i < |r| ==> !r[i].locked
  {
    StartsWellFormed();
    OffersOfShape(Starts, hours, date, now, LockedKeys(bookings, date), r);
  }

  /** For bookings whose start is stored as `HH:MM`, matching the key means matching
      both stored times. */
  lemma KeyMatchesTimes(b: Booking, start: Time, end: Time)
    requires start.Valid() && end.Valid() && |b.slotStart| == 5
    ensures b.slotStart + "-" + b.slotEnd == SlotKey(start, end) <==>
            b.slotStart == FormatHHMM(start) && b.slotEnd == FormatHHMM(end)
  {
    var k := b.slotStart + "-" + b.slotEnd;
    SlotKeyParts(start, end);
    if k == SlotKey(start, end) {
      assert k[..5] == b.slotStart && k[6..] == b.slotEnd;
    }
  }

  // ---------------------------------------------------------------------------
  // Locks and the ledger

  /** The locked keys read only dates and slot times. */
  lemma LockedKeysReadOnlySlots(a: seq<Booking>, b: seq<Booking>, date: Option<int>)
    requires |a| == |b|
    requires forall i :: 0 <= i < |a| ==> SameBookingData(a[i], b[i])
    ensures LockedKeys(a, date) == LockedKeys(b, date)
  {
    forall k | k in LockedKeys(a, date) ensures k in LockedKeys(b, date) {
      var x :| x in a && date.Some? && x.date == date && x.slotStart != "" && x.slotEnd != ""
               && k == x.slotStart + "-" + x.slotEnd;
      var i :| 0 <= i < |a| && a[i] == x;
      assert b[i] in b;
    }
    forall k | k in LockedKeys(b, date) ensures k in LockedKeys(a, date) {
      var x :| x in b && date.Some? && x.date == date && x.slotStart != "" && x.slotEnd != ""
               && k == x.slotStart + "-" + x.slotEnd;
      var i :| 0 <= i < |b| && b[i] == x;
      assert a[i] in a;
    }
  }

  /** Cancelled bookings still lock their slots: neither kind of cancellation frees one. */
  lemma CancellationKeepsLocks(list: seq<Booking>, date: Option<int>, id: string, note: string, refund: int,
                               session: Option<string>, chosen: Option<string>, now: Instant, reason: Option<string>,
                               later: Instant)
    ensures LockedKeys(AdminCancelledAt(list, id, note, refund, now), date) == LockedKeys(list, date)
    ensures LockedKeys(SelfCancelled(list, session, chosen, now, reason, later), date) == LockedKeys(list, date)
  {
    AdminCancelKeepsData(list, id, note, refund, now);
    LockedKeysReadOnlySlots(AdminCancelledAt(list, id, note, refund, now), list, date);
    SelfCancelKeepsData(list, session, chosen, now, reason, later);
    LockedKeysReadOnlySlots(SelfCancelled(list, session, chosen, now, reason, later), list, date);
  }

  /** Booking a button of the grid locks it: drawn again for that date, the same
      button comes out locked. */
  lemma BookedSlotLocked(list: seq<Booking>, f: DetailsForm, sel: Selection, gatewayLoaded: bool,
                         widget: WidgetOutcome, id: string, t: Instant, hours: nat, now: Instant,
                         before: seq<SlotOffer>, after: seq<SlotOffer>, i: nat)
    requires f.date.Some? && before == Offers(hours, f.date, now, list) && i < |before|
    requires f.slotValue == Some(SlotKey(before[i].start, before[i].end))
    requires SubmitOutcomeOf(f, sel, gatewayLoaded, widget, id, t).Booked?
    requires after == Offers(hours, f.date, now, list + [SubmitOutcomeOf(f, sel, gatewayLoaded, widget, id, t).booking])
    ensures |after| == |before| && after[i].start == before[i].start && after[i].end == before[i].end
    ensures after[i].locked
  {
    StartsWellFormed();
    var b := SubmitOutcomeOf(f, sel, gatewayLoaded, widget, id, t).booking;
    var list' := list + [b];
    OffersOfTimesIgnoreLocks(Starts, hours, f.date, now, LockedKeys(list, f.date), LockedKeys(list', f.date),
                             before, after);
    SplitSlotKey(before[i].start, before[i].end);
    assert b.slotStart == FormatHHMM(before[i].start) && b.slotEnd == FormatHHMM(before[i].end);
    assert b in list';
    OfferLockedIff(hours, f.date, now, list', after);
  }
}
