# KKR Studios booking core, in Dafny

KKR Studios is a small browser application for booking party slots. It has a
login and registration page, a shop cart, a booking page and a details page
with a time-slot grid and a payment step, a side menu from which a user who owns a
booking cancels a booking by its ticket id, and an admin dashboard for cancelling any booking. All state lives in
the browser's `localStorage`. This project models the logic that sits inside
those event handlers and proves what it does:

- **Pricing** (`pricing.dfy`): the rupee amount read from a package label, the
  amount in paise handed to the payment gateway, and the slot length in hours.
- **Clock** (`clock.dfy`): times of day, the stored `HH:MM` form and its
  reading back, the end of a slot, `computeEndTime`, and the 12-hour display
  `formatDisplay`.
- **Slots** (`slots.dfy`): `renderSlots`, which collects the keys of the
  bookings on the chosen date and draws the thirteen hourly starts from 08:00
  to 20:00. Starts already past on today's date are skipped. Each slot gets its
  end time, and a slot whose `start-end` key is taken is locked.
- **Bookings** (`bookings.dfy`): the booking ledger. It covers the booking
  appended after a successful payment, self-cancellation with its three-hour
  cutoff, and admin cancellation.
- **Shop** (`cart.dfy`): the cart object with `addToCart`, `updateQty`,
  `removeItem`, checkout and emptying, and the folds `cartToCount` and
  `cartToTotal`.
- **Users** (`users.dfy`): registration, with its case-insensitive check that
  the email is new; login by case-insensitive email and exact password; the
  session; and the login history.
- `text.dfy`, `validate.dfy`, `search.dfy`, `wrappers.dfy` supply the string
  operations the handlers use (`trim`, `toLowerCase`, `includes`,
  `padStart`), the two validators, `findIndex`, and `Option`/`Result`.

The stored lists are fields of classes (`Bookings.Ledger`, `Shop.Cart`,
`Users.Directory`). The handlers' in-place changes are methods, each proved
against a function of the old state, and the properties are lemmas about those
functions. The clock is a parameter: an instant is a day number and a minute
of that day. A date is a day number, `None` when none is chosen. Ticket ids,
payment outcomes and the refund amount typed by the admin are parameters too.

Five behaviours of the code deserve stating plainly, because a reader might
expect otherwise:

- The side menu does not limit a user to their own bookings. Once the signed-in
  user owns at least one booking, the ticket id typed is looked up in the whole
  ledger (script.js:397), so any booking can be cancelled.
  `Bookings.CancelsAnotherUsersBooking` states this.
- The cutoff comparison is strict (`new Date() > cutoff`, script.js:406). So an
  08:00 booking can still be cancelled by its user at exactly 05:00, and not a
  moment later. `Bookings.CutoffScenario` states this.
- The cutoff is tested before the reason is asked for (script.js:406-411), and the
  booking is stamped with a second reading of the clock once the reason is given
  (script.js:417). A reason prompt left open past the event's start still
  cancels the booking. `Bookings.LateCommitScenario` states this.
- A slot is locked by any booking on the date, whatever its status
  (script.js:814-822 never reads the status). Cancelling a booking does not free
  its slot. See `Slots.CancellationKeepsLocks`.
- Admin cancellation (script.js:625-673) does not check the status itself. The
  dashboard draws a Cancel button only for bookings whose status is not
  `cancelled` (script.js:523). A booking cancelled by its user keeps its button
  and can be cancelled again by the admin. A second admin cancellation of the
  same booking needs a table drawn before the first, or two bookings sharing an
  id; it then overwrites the note, the refund and the time. See
  `Bookings.AdminCancelLastWriteWins`.

Booking creation does not check the chosen slot against existing bookings
(`Bookings.NoConflictCheck`), and new ticket ids are not regenerated on collision.

Lengths in the code are JavaScript string lengths, which count UTF-16 code
units. The model counts them with `Text.Utf16Length`, so a password of three
emoji is six units long and passes the six-character check.

## Model

| member | source | states |
|---|---|---|
| Pricing.PackageAmountRupees | script.js:17-26 | The result is 0 or one of 2699, 1699, 999, 699, 499. A missing or empty label gives 0. The result is 0 exactly when the label names no amount of the list. Otherwise the label contains the result's numeral. No amount the label names is larger than the result, so "2699" wins over the "699" it contains. |
| Pricing.OneHourPackage | script.js:17-26 | "PACKAGE 999 (1 HR)" costs 999 rupees and gives a 1-hour slot. |
| Pricing.TwoHourPackage | script.js:17-26 | "PACKAGE 2699 (2 HR)" costs 2699 even though it contains "699", and gives a 2-hour slot. |
| Pricing.CheckoutAmount | script.js:30-44 | The gateway is opened exactly when it is loaded and the package amount is not 0. The amount it gets is positive, a multiple of 100, and 100 times the rupee amount. An unloaded gateway is reported as such, and a loaded one with amount 0 as a configuration error. |
| Pricing.SlotHours | script.js:948-954 | The slot length is 1 or 2 hours, and 2 exactly when the stored label contains "2 HR". |
| Clock.FormatParseRoundTrip | script.js:838-842 | The zero-padded `HH:MM` form of a time holds no `-` and reads back as the same time. |
| Clock.ParsedIsFormatted | script.js:838-842 | A string that reads as a time is that time's `HH:MM` form, so the stored form is unique. |
| Clock.Pad2Reads | script.js:805-806 | `padStart(2, '0')` of a number below 100 is two digits that read back as the number. |
| Clock.Pad2 | script.js:805-806 | `padStart(2, '0')` of a number below 100 is two characters; `Pad2Reads` shows they are digits that read back as the number. |
| Clock.FormatHHMM | script.js:842 | The stored `HH:MM` form has five characters with `:` in the middle; `FormatParseRoundTrip` and `ParsedIsFormatted` show it is the one string that reads back as the time. |
| Clock.ParseHHMM | script.js:404 | Reading a stored start as a time of day gives a valid time or nothing. |
| Clock.At | script.js:404 | The moment of a time on a day is valid, on that day, and lies `day * 1440 + minutes` minutes from the origin. |
| Clock.EndTime | script.js:838-842 | The end is a valid time with the start's minute. |
| Clock.EndTimeWraps | script.js:838-842 | The end lies `hours` hours after the start, wrapping round midnight: its minute of the day is the start's plus `60 * hours`, modulo one day. |
| Clock.ComputeEndTimeIsOneHourSlot | script.js:799-808 | `computeEndTime` (start plus sixty minutes, wrapping at midnight) agrees with the end of a 1-hour slot. |
| Clock.ComputeEndTime | script.js:799-808 | Sixty minutes after the start, wrapping at midnight, or nothing for an empty start; `ComputeEndTimeIsOneHourSlot` shows it is the end of a 1-hour slot. |
| Clock.FormatDisplay | script.js:876-883 | The 12-hour label `h:MM AM/PM`, hour without a leading zero; `DisplayRoundTrip` shows it reads back as the time it shows. |
| Clock.DisplayRoundTrip | script.js:876-883 | The 12-hour text `h:MM AM/PM` reads back as the time it shows, so no two times display alike. |
| Clock.Hour12 | script.js:880 | The 12-hour clock hour (the hour modulo 12, or 12 where that is 0) is between 1 and 12 and agrees with the hour modulo 12. |
| Clock.SlotKeyParts | script.js:854 | A radio value `start-end` is the start's `HH:MM`, a `-`, and the end's `HH:MM`. |
| Clock.SlotKey | script.js:854 | The radio value of a slot has eleven characters; `SlotKeyParts` shows they are the start's `HH:MM`, a `-`, and the end's `HH:MM`. |
| Slots.CollectLocked | script.js:814-822 | The `forEach` loop collects exactly the keys of the bookings on the chosen date that have both times. |
| Slots.RenderSlots | script.js:810-868 | The grid drawn is `Offers`: the keys are collected first, then the catalogue is walked. |
| Slots.DrawOffers | script.js:826-868 | The loop over the starts builds exactly the grid `OffersOf` describes. |
| Slots.StartsWellFormed | script.js:825 | The catalogue is the 13 starts 08:00, 09:00, ..., 20:00, valid and strictly ascending. |
| Slots.LockedKeys | script.js:814-822 | The keys `slotStart-slotEnd` of the bookings on the chosen date with both times set; `CollectLocked` computes it and `OfferLockedIff` and `LockedKeysReadOnlySlots` state its meaning. |
| Slots.Visible | script.js:828-836 | A start is shown unless the chosen date is today and the start is not later than now; `OfferedToday` and `AllOfferedOnOtherDays` state it for the grid. |
| Slots.OfferFor | script.js:838-858 | The button for a start ends `hours` later and is locked exactly when its key is locked; `OffersOfShape` and `OfferEnds` state it for every button. |
| Slots.OffersOf | script.js:826-868 | At most one button per candidate start, each with a valid start and end. |
| Slots.Offers | script.js:810-868 | The grid has at most 13 buttons, each with a valid start and end. |
| Slots.OffersOfSound | script.js:826-836 | Every button is for a candidate start that is visible. |
| Slots.OffersOfComplete | script.js:826-836 | Every visible candidate start has a button. |
| Slots.OffersOfAscending | script.js:825-868 | Buttons keep the ascending order of the candidate starts. |
| Slots.OffersOfAll | script.js:827-836 | On any date but today, every candidate start gets a button, in order. |
| Slots.OffersOfTimesIgnoreLocks | script.js:838-858 | The starts and ends of the buttons do not depend on which keys are locked. |
| Slots.OfferedStarts | script.js:825-836 | Offered starts are catalogue starts in strictly ascending order. A catalogue start is offered exactly when it is not already past today. |
| Slots.OfferedToday | script.js:828-836 | On today's date a start is offered exactly when its instant is later than now. |
| Slots.AllOfferedOnOtherDays | script.js:827-836 | With no date, or any date but today, all 13 starts are offered in order. |
| Slots.OffersOfShape | script.js:838-858 | Every button drawn for a start ends `hours` later on the clock and is locked exactly when its `start-end` key is among the locked keys. |
| Slots.OfferEnds | script.js:838-842 | Each slot ends at `EndTime(start, hours)`: the hour is (start hour + hours) mod 24 and the minute is unchanged. For 1- and 2-hour slots the end is the same day. |
| Slots.CatalogueEnd | script.js:825-842 | A catalogue start is at 20:00 at the latest. So a slot of up to two hours ends on the same day, at the start hour plus its length. |
| Slots.OfferLockedIff | script.js:814-856 | A slot is locked exactly when some booking on the chosen date, with both times set, has its key. With no date, nothing is locked. |
| Slots.KeyMatchesTimes | script.js:820-856 | For a booking with a 5-character start, key equality means equal start and end. |
| Slots.LockedKeysReadOnlySlots | script.js:817-821 | The locked keys depend only on the bookings' dates and slot times, never on status. |
| Slots.CancellationKeepsLocks | script.js:664-673 | Neither self-cancellation nor admin cancellation frees a slot. |
| Slots.BookedSlotLocked | script.js:921-937 | After a slot of the grid is booked, the grid redrawn for that date shows the same slot locked. |
| Bookings.HasId | script.js:397 | The test `findIndex` applies to a booking: its ticket id is the one given; `FirstWithIdIsFirstMatch` shows the search finds the first such booking. |
| Bookings.Owns | script.js:387 | A booking belongs to a user when its email is set and equals the user's, ignoring case; `Mine` and `OwnerIsNamed` build on it. |
| Bookings.Mine | script.js:387 | The user's bookings are exactly those of the ledger whose email is set and equal, ignoring case, to the session's. |
| Bookings.HasBookingsIff | script.js:387-388 | The user has bookings exactly when some booking of the ledger is theirs. |
| Bookings.PastCutoffMonotone | script.js:403-409 | Once past the cutoff, always past it; open now means open at every earlier moment. |
| Bookings.EventStart | script.js:404 | The event's start: a stored `HH:MM` start on the booking's day, `24:00` as the next midnight, and no instant for anything else. |
| Bookings.MidnightStartScenario | script.js:403-409 | A stored start of `24:00` is the next midnight, so its cutoff is 21:00: open at 21:00, closed a minute later. |
| Bookings.CutoffScenario | script.js:403-409 | An 08:00 booking can be cancelled at 05:00 that day and at 23:00 the day before, but not at 05:01. |
| Bookings.PastCutoff | script.js:403-409 | `now` is strictly later than three hours before the event's start; a start of `24:00` is the next midnight, and any other start that does not read as `HH:MM` gives an invalid date and is never past. `PastCutoffMonotone` and `CutoffScenario` state how it behaves in time. |
| Bookings.IsCancelled | script.js:400 | A status counts as cancelled when it starts with `cancelled`. |
| Bookings.CancelledStatuses | script.js:400 | Both cancelled statuses, `cancelled_by_user` and `cancelled`, read as cancelled; the empty status of a new booking does not. |
| Bookings.SelfCancelDecision | script.js:380-412 | The self-cancel handler's checks in its order: signed in, owns a booking, ticket given, ticket found in the whole ledger, not already cancelled, date and start set, not past the cutoff, reason given. `SelfCancelAcceptedIff` states exactly when it accepts. |
| Bookings.LateCommitScenario | script.js:403-418 | A reason asked for at 04:59 for an 08:00 booking and given at 09:00 still cancels the booking, stamped 09:00, after the event's start. |
| Bookings.CancelsAnotherUsersBooking | script.js:386-397 | A signed-in user who owns one booking can cancel another booking of the ledger that is not theirs. |
| Bookings.AcceptedAt | script.js:395-412 | When every check passes at the first booking with the ticket id, the decision is to cancel it. |
| Bookings.OwnerIsNamed | script.js:387 | Only a non-empty user can own a booking. |
| Bookings.SelfCancelled | script.js:414-418 | The decision is taken at the moment of the cutoff test; an accepted one cancels the first booking with the ticket id and stamps it with the later moment the reason was given; any refusal leaves the ledger as it was. `CancelledByUserAt` and `SelfCancelKeepsData` state the change. |
| Bookings.SelfCancelAcceptedIff | script.js:380-413 | Self-cancellation goes through exactly when all of these hold: someone is signed in and owns a booking; a ticket id is given; the first booking with that id (anywhere in the ledger) is not cancelled, has a date and a start, and is not past the cutoff; and the trimmed reason is not empty. |
| Bookings.AcceptedUserHasBookings | script.js:383-388 | An accepted self-cancellation has a signed-in user who owns a booking. |
| Bookings.AcceptedBookingPassedChecks | script.js:395-413 | An accepted self-cancellation found its ticket, which passed every check, and had a non-blank reason. |
| Bookings.PassedChecksAccepted | script.js:380-413 | When every check passes, self-cancellation is accepted. |
| Bookings.SelfCancelMonotoneInTime | script.js:403-409 | An accepted cancellation would also have been accepted earlier; one refused as too late stays refused later. |
| Bookings.CancelledByUserAt | script.js:414-418 | Self-cancellation changes only the chosen booking. It sets the status "cancelled_by_user", the trimmed reason and the time, and keeps its data, note and refund. |
| Bookings.AdminCancelledAt | script.js:664-673 | The ledger keeps its length. |
| Bookings.AdminCancelKeepsData | script.js:664-673 | Admin cancellation leaves the id, customer, package, date and slot of every booking unchanged. |
| Bookings.SelfCancelKeepsData | script.js:414-418 | Self-cancellation keeps the ledger's length and leaves the id, customer, package, date and slot of every booking unchanged. |
| Bookings.AdminCancelEffect | script.js:664-673 | Admin cancel changes only the first booking with the id, whatever its status. It sets the status "cancelled", the note, the refund and the time, and keeps its data and reason. An unknown id changes nothing. |
| Bookings.AdminCancelLastWriteWins | script.js:664-673 | Cancelling twice leaves what the second cancellation alone leaves. |
| Bookings.FirstWithIdIsFirstMatch | script.js:397 | `findIndex` finds a booking exactly when one has the id, and finds the first. |
| Bookings.SplitSlotKey | script.js:894-899 | Splitting a slot's radio value at `-` gives back its `HH:MM` start and end. |
| Bookings.SplitSlot | script.js:893-899 | The start and end read from the chosen radio value, both empty when no value with a `-` is chosen; `SplitSlotKey` shows a slot's value splits back into its `HH:MM` start and end. |
| Bookings.BeforeDashOf | script.js:896-898 | The part before the first `-` of a dash-free string, followed by a `-` or by nothing, is that string. |
| Bookings.BeforeDash | script.js:896-898 | The part before the first `-` is a dash-free prefix, followed by a `-` if it is not the whole string. |
| Bookings.PaymentReference | script.js:28-75 | A payment reference exists exactly when the gateway is loaded, the package amount is not 0, and the widget approves the payment. The reference is the widget's payment id. |
| Bookings.DetailsValid | script.js:907-912 | The details form passes when the trimmed name is not empty, the mobile is ten digits, the email is valid, a date is chosen and both slot times are set; `SubmitOutcomeOf` books exactly when it holds and the payment succeeds. |
| Bookings.NewBooking | script.js:921-933 | The stored record: the given id, occasion and package (empty when missing), trimmed name, mobile and email, the date, the split slot times, the time and the payment id, with no status; `SubmitOutcomeOf` states it. |
| Bookings.SubmitOutcomeOf | script.js:885-937 | A booking is made exactly when the details are valid and the payment succeeds. The record has the given id, no status, the form's date, both slot times set, and the trimmed email. |
| Bookings.NoConflictCheck | script.js:913-937 | The same slot can be booked twice on one date, leaving two uncancelled bookings for it. |
| Bookings.BookingListedForOwner | script.js:921-937 | A new booking appears at the end of its owner's list of bookings. |
| Bookings.Ledger.Submit | script.js:885-937 | The outcome is `SubmitOutcomeOf`. A booking is appended on success, and the ledger is unchanged otherwise. |
| Bookings.Ledger.CancelByUser | script.js:377-420 | The outcome is `SelfCancelDecision` at the moment of the cutoff test, and the ledger becomes `SelfCancelled`, stamped with the moment the reason was given. Every refusal leaves the ledger unchanged. |
| Bookings.Ledger.CancelByAdmin | script.js:625-673 | Dismissing either prompt changes nothing. Otherwise the ledger becomes `AdminCancelledAt`, and `found` says whether the id exists. |
| Bookings.Ledger.Clear | script.js:536-540 | The ledger is emptied. |
| Bookings.Ledger.constructor | script.js:386 | The ledger holds the stored bookings. |
| Shop.IndexOf | script.js:303-313 | Where an id is stored: the first line with that id, or -1 when there is none. |
| Shop.Lookup | script.js:303-313 | `cart[id]` finds a line exactly when one has the id, and it has that id. |
| Shop.LookupAt | script.js:303-313 | With distinct ids, looking up a line's id finds that line. |
| Shop.Added | script.js:302-310 | `addToCart` on the lines; `AddedLookup`, `AddedSums` and `AddedPositive` state its effect. |
| Shop.Updated | script.js:311-318 | `updateQty` on the lines; `UpdatedLookup`, `UpdatedSums` and `UpdatedPositive` state its effect. |
| Shop.Removed | script.js:319-324 | `delete cart[id]` on the lines; `RemovedEffect` and `RemovedPositive` state its effect. |
| Shop.Count | script.js:271-273 | `cartToCount` is at least the number of lines when all quantities are positive. |
| Shop.Total | script.js:274-276 | `cartToTotal` is not negative when quantities are positive and prices are not negative. |
| Shop.SumsConcat | script.js:271-276 | Both folds add up over concatenated carts. |
| Shop.AddedLookup | script.js:302-310 | Adding a new id stores quantity 1 at the product's price. Adding a stored id adds one and keeps its stored price. No other id changes, and ids stay distinct. |
| Shop.AddedSums | script.js:302-310 | Adding raises the count by one and the total by the stored unit price. |
| Shop.AppendKeepsOthers | script.js:302-310 | Appending a line with a new id keeps ids distinct and changes no other id's lookup. |
| Shop.AddedPositive | script.js:302-310 | Adding keeps every quantity positive. |
| Shop.UpdatedLookup | script.js:311-318 | An unknown id changes nothing. Otherwise the quantity moves by `delta`, or the line is deleted once it is 0 or less. No other id changes, and ids stay distinct. |
| Shop.UpdatedSums | script.js:311-318 | The count moves by `delta` and the total by `delta` unit prices, or the deleted line's whole share is subtracted. |
| Shop.UpdatedPositive | script.js:311-318 | Updating keeps every quantity positive: a line that would drop to zero or below is deleted. |
| Shop.RemovedEffect | script.js:319-324 | Removing deletes exactly that id and its share of the count and total. An unknown id changes nothing. |
| Shop.RemovedPositive | script.js:319-324 | Removing keeps every quantity positive. |
| Shop.Cart.constructor | script.js:260-267 | The cart read from storage holds the stored lines, which have distinct ids. |
| Shop.Cart.AddToCart | script.js:302-310 | The cart becomes `Added(old cart, product)`, and ids stay distinct. |
| Shop.Cart.UpdateQty | script.js:311-318 | The cart becomes `Updated(old cart, id, delta)`. |
| Shop.Cart.RemoveItem | script.js:319-324 | The cart becomes `Removed(old cart, id)`. |
| Shop.Cart.Checkout | script.js:424-436 | An empty cart is refused. Otherwise checkout completes, and the cart ends empty either way. |
| Shop.Cart.Empty | script.js:437-442 | The cart is emptied. |
| Users.RegisterDecision | script.js:166-207 | Sign-up succeeds exactly when all of these hold: the trimmed name has at least 3 UTF-16 units, the trimmed email is valid, the password has at least 6 UTF-16 units and equals the confirmation, and no account has the email up to letter case. A rejection flags exactly the failed fields. "Already registered" comes exactly when every field passes and the email is taken. |
| Users.EmailIs | script.js:138 | The test of `users.find`: the account's email equals the typed one, ignoring case; `LoginDecision` uses the first account passing it. |
| Users.Registered | script.js:199 | `users.some(...)`: some account's email equals the typed one, ignoring case; `RegisterDecision` and `LoginDecision` state their verdicts with it. |
| Users.PasswordLongEnough | script.js:131 | A password passes when it has at least 6 UTF-16 units, which also rules out the empty password; `Utf16LengthOfEmoji` shows the unit. |
| Users.NameLongEnough | script.js:180 | A trimmed name passes when it has at least 3 UTF-16 units, which also rules out the empty name. |
| Users.RegisterPreservesUniqueness | script.js:198-207 | A successful sign-up keeps emails unique up to letter case. |
| Users.NewUser | script.js:206 | The appended account has the trimmed name, the trimmed email and the password as typed; `RegisterThenLogin` shows it can log in. |
| Users.LoginDecision | script.js:117-146 | Input errors are reported exactly when the trimmed email is invalid or the password is shorter than 6 UTF-16 units, with a flag for each. With well-formed input, "not registered" comes exactly when no account has the email up to case. Otherwise the first such account decides: a wrong password exactly when its password differs from the one typed, and a login as that account exactly when it is the same. |
| Users.LoginSucceedsIff | script.js:137-146 | With unique emails, login succeeds exactly when the inputs are well formed and some account with the email, up to case, has exactly that password. |
| Users.RegisterThenLogin | script.js:198-210 | Logging in right after signing up, with the same email and password, signs in as the new account. |
| Users.Directory.Register | script.js:198-210 | On success the account is appended and the session is the trimmed email. On refusal nothing changes. Emails stay unique. |
| Users.Directory.Login | script.js:136-153 | On success the session is the account's stored email and a login record is appended. Otherwise nothing changes. |
| Users.Directory.Logout | script.js:99-101 | The session is cleared. |
| Users.Directory.constructor | script.js:79 | Nothing stored: no accounts, nobody signed in, no login history. |
| Search.FirstMatch | script.js:397 | `findIndex` returns the first index that passes the test, or -1 when none does. |
| Search.FindFirst | script.js:397 | The element-by-element scan returns exactly `FirstMatch`. |
| Text.Trim | script.js:413 | `trim()` is empty exactly for an all-blank string. Otherwise it starts and ends with a non-blank character, and it is a slice of the input. |
| Text.ToLower | script.js:387 | `toLowerCase()` keeps the length and lowers each letter. |
| Text.IsSpace | script.js:413 | The characters `trim` removes and `\s` matches: the ECMAScript white space and line terminators; `Trim` is stated in terms of it. |
| Text.IsPrefix | script.js:400 | `startsWith`: the string begins with the prefix; `CancelledStatuses` shows it on the status values. |
| Text.Contains | script.js:20-24 | `includes`: the text occurs somewhere; `ContainsIff` states it as an occurrence at some position. |
| Text.ContainsIff | script.js:20-24 | `includes(sub)` holds exactly when `sub` occurs at some position. |
| Text.NumeralValue | script.js:801 | `Number` of a digit string, as `split(':').map(Number)` reads an hour or a minute; `Numeral`, `Pad2Reads` and `FormatParseRoundTrip` show it reads back what was written. |
| Text.Numeral | script.js:882 | `String(n)` is a non-empty digit string that reads back as `n` and has no leading zero unless `n` is 0. |
| Text.Utf16Length | script.js:131 | A string's JavaScript length: between its number of characters and twice that, and equal to it when no character lies outside the Basic Multilingual Plane. |
| Text.Utf16LengthOfEmoji | script.js:131 | Three emoji are three characters but six UTF-16 units, so they pass a six-character check. |
| Validate.EmailExamples | script.js:103-106 | `validateEmail` accepts `ab@cd.in` and refuses an address with no dot after the `@`, with nothing before it, or with two `@`s. |
| Validate.MobileExamples | script.js:909 | The mobile check accepts ten digits and refuses nine digits or a letter among ten. |
| Validate.IsEmail | script.js:103-106 | The email pattern: no white space, exactly one `@` with something before it, and a `.` after the `@` with something on both its sides. `EmailExamples` shows cases. |
| Validate.IsTenDigits | script.js:909 | The mobile pattern: exactly ten ASCII digits. `MobileExamples` shows cases. |

## Left out

- Bookings.PastCutoff: the clock is read in whole minutes. The code compares
  milliseconds, so it already refuses at 05:00:01 a booking the model refuses
  only from 05:01.
- Bookings.EventStart: besides `HH:MM` and `24:00`, a browser's fallback date
  parser may accept other stored start texts (the page never writes them). The
  model reads all of them as an invalid date.

- Page rendering, `alert`, `prompt` and `confirm` dialogs, redirects, the hero
  slider and its timer are user interface. A dismissed prompt is an `Option`
  that is `None`.
- Reading and writing `localStorage` and JSON are left out. The stored lists are
  the classes' fields. A malformed store, which the code reads as empty, is not
  modelled, and neither are `null` entries inside stored lists.
- The Razorpay widget is asynchronous foreign code. Its result is the
  `WidgetOutcome` parameter. Only the amount check before it opens is modelled.
- The refund request to the backend is a network call that cannot change the
  ledger update, so it is left out, along with its confirmation message.
- The ticket printout and the HTML report download are display formatting.
- Ticket ids from `Date.now()` and `Math.random()`, and the current time, are
  parameters. ISO timestamps are instants.
- `renderSlots` takes "today" in UTC but builds the slot instant in local time.
  The model uses one clock for both, so the mismatch near midnight is not
  reproduced.
- Bookings.Booking: stored dates are ISO date strings compared with `===`. The
  model compares day numbers, assuming canonical date strings.
- Bookings.Ledger.CancelByAdmin: the refund amount is the integer `Number(amt) || 0`
  yields. The parsing of the typed text, and fractional rupees, are not modelled.
- The hard-coded admin credentials and the redirect of the admin account are
  left out. So is the demo booking the profile page inserts when the ledger is
  empty.
- Text.ToLower: only ASCII letters are lowered. `toLowerCase` also lowers other
  alphabets.
- Shop.Total: prices are whole units (cents). The `toFixed(2)` display and
  floating-point rounding are left out. The product list of the page is empty,
  so the cart is never reached in the shipped page.
- Users.Directory.Login: the login history write is wrapped in a `try` that
  ignores failures. The model always records the login.
- Slots.RenderSlots: the radio ids, the label text and the "Booked" badge are
  display. The label text is `Clock.FormatDisplay` of the start and end.
- `computeEndTime` is defined but never called in the code. It is modelled as
  `Clock.ComputeEndTime` and related to the slot end.
- Bookings.Ledger.Submit: the slot is not checked against existing bookings. In
  the page a locked radio is disabled (script.js:856-857), so a taken slot can
  only be chosen from a grid drawn before the other booking was stored.
- Bookings.Ledger.Submit: after storing the booking the handler also removes the
  saved package selection (`app_booking_selection`, script.js:939). The
  selection is a parameter here, not stored state, so its removal is not
  modelled.
