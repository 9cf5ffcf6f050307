# SmartPRO booking core in Dafny

SmartPRO is a service marketplace: providers list services, and clients book them
in half-hour time slots between 09:00 and 17:00. This project models the parts of
the web front end that decide what a client is offered and what gets written.

- **Slot generation** (`SlotGeneration`). `generateTimeSlots` walks the candidate
  starts 09:00, 09:30, …, 16:30. It drops a candidate when its end-time check
  fails. It also drops a candidate when its range overlaps a booking that blocks
  it, using the same string comparisons as the source. The nested loops keep
  their shape and are proved against a specification function of the kept starts.
- **Booking flow** (`BookingFlow`). Choosing a service, a date and a slot;
  submitting; cancelling; refreshing the client's own list. It also covers the
  three tabs the list is split into and the date picker's disabled days. The
  bookings table is a class updated in place. The component's state hooks are
  the fields of `ServiceBooking`.
- **Revenue chart** (`RevenueOverview`). Twelve month buckets are filled in
  place from the completed bookings of the year. An error or an empty result
  falls back to a fixed sample series.
- **Signup schema** (`SignupValidation`). The hand-written checks: password
  length and character classes, the Omani phone pattern, the confirmation, and
  the fields each user type must give.
- **Smaller components**:
  - the accordion's open list (`SimpleAccordion`);
  - the carousel index (`SimpleCarousel`);
  - the avatar initials (`UsersInitials`);
  - the local list updates after a status change (`AppointmentsPage`) or a role
    change (`AdminUsersPage`);
  - the "HH:MM" texts and the 12-hour labels (`ClockText`).

Everything the code receives from outside becomes a parameter: the signed-in
user, each query's answer or error, the id the database gives a new row, the
user's answer to a confirmation, the current instant and today's date. Dates are
day numbers, with day 0 being 1970-01-01. Instants are minutes since then. Times
of day are minute counts, rendered as the source renders them.

## Model

| member | source | states |
|---|---|---|
| ClockText.NatTextRoundTrip | components/client/service-booking.tsx:384 | reading back the decimal text of a number gives the number |
| ClockText.Pad2RoundTrip | components/client/service-booking.tsx:384 | `padStart(2, "0")` keeps the numeric value |
| ClockText.Pad2Digits | components/client/service-booking.tsx:384 | below 100 the padded field is the tens digit then the units digit |
| ClockText.TimeTextShape | components/client/service-booking.tsx:384-395 | a start or end text below 100:00 is exactly five characters, HH ':' MM |
| ClockText.TextLessFive | components/client/service-booking.tsx:399-403 | JavaScript's string `<` on two five-character texts is decided at the first differing position |
| ClockText.TimeTextOrder | components/client/service-booking.tsx:399-403 | for times below 100:00, the string comparison agrees with the numeric order, and equal texts mean equal times |
| ClockText.ClockMinutesRoundTrip | components/client/service-booking.tsx:832-859 | a rendered time of day, up to the closing "24:00", parses back to its minute count |
| ClockText.Hour12 | components/client/service-booking.tsx:435 | `hour % 12 \|\| 12` lies in 1..12 and agrees with the hour modulo 12 |
| ClockText.TwelveHourRoundTrip | components/client/service-booking.tsx:432-437 | the 12-hour label's hour and AM/PM determine the 24-hour hour |
| ClockText.FormatTimeExamples | components/client/service-booking.tsx:432-437 | midnight is "12:MM AM", noon "12:MM PM", 13:00 "1:MM PM", and the minutes are two digits |
| SlotGeneration.GenerateTimeSlots | components/client/service-booking.tsx:370-417 | the nested loops return the candidate slots of exactly the kept starts, in loop order |
| SlotGeneration.HourSlots | components/client/service-booking.tsx:383-414 | one hour's inner loop appends that hour's kept slots, and the rest of the day follows them |
| SlotGeneration.TryCandidate | components/client/service-booking.tsx:384-413 | the loop body pushes the candidate's slot exactly when it passes the end-time check and the overlap test |
| SlotGeneration.SlotsOfIndex | components/client/service-booking.tsx:406-412 | slot i is built from start i, with end = start + duration |
| SlotGeneration.KeptFromIsFilter | components/client/service-booking.tsx:382-383 | the loop-shaped list of kept starts is the filter of the candidate grid by Keep |
| SlotGeneration.PassKeeps | components/client/service-booking.tsx:384-412 | the body's string-built checks and pushed slot are the Keep test and the candidate slot of the start hour*60+minute |
| SlotGeneration.GridFilterMember | components/client/service-booking.tsx:382-383 | a start is in the filtered candidates from a pass on exactly when it is a later grid start that passes the test |
| SlotGeneration.GridFilterIncreasing | components/client/service-booking.tsx:382-383 | the loops visit candidates in strictly increasing order |
| SlotGeneration.KeptStartsMembers | components/client/service-booking.tsx:382-404 | a start is offered exactly when it is a candidate that passes the end-time rule and the overlap test, and the offered starts strictly increase |
| SlotGeneration.KeepIsKept | components/client/service-booking.tsx:382-412 | a candidate that passes both checks is offered |
| SlotGeneration.KeptIsKeep | components/client/service-booking.tsx:382-412 | an offered start is a candidate that passes both checks |
| SlotGeneration.KeptIff | components/client/service-booking.tsx:382-412 | for a candidate, being offered and passing both checks are equivalent |
| SlotGeneration.LastCandidate | components/client/service-booking.tsx:382-383 | the last candidate start is 16:30 |
| SlotGeneration.KeepAsWritten | components/client/service-booking.tsx:389-404 | under line 393 as written, a start is kept exactly when its end falls on the hour and it overlaps no blocked range |
| SlotGeneration.KeepIntended | components/client/service-booking.tsx:392-404 | under the close-of-business rule, a start is kept exactly when it ends by 17:00 and overlaps no blocked range |
| SlotGeneration.KeepIsFree | components/client/service-booking.tsx:398-404 | a kept start clashes with no blocked range under the source's three-clause test |
| SlotGeneration.OfferedSlotAt | components/client/service-booking.tsx:406-412 | offered slot i starts at the i-th kept start, which is a candidate, and ends duration minutes later |
| SlotGeneration.SlotsAreCandidates | components/client/service-booking.tsx:382-412 | every offered slot starts at a candidate and lasts the service's duration |
| SlotGeneration.SlotsAscending | components/client/service-booking.tsx:382-412 | the offered slots are in strictly ascending order of their start texts |
| SlotGeneration.OfferedSlotsOrdered | components/client/service-booking.tsx:382-412 | an earlier offered slot has a smaller start text |
| SlotGeneration.SurvivesHourCheckIff | components/client/service-booking.tsx:389-393 | as written, the end-time check passes exactly when the end minute is 0 |
| SlotGeneration.OffGridEndsOffTheHour | components/client/service-booking.tsx:389-393 | from a half-hour start, a duration that is not a multiple of 30 always fails the end-time check |
| SlotGeneration.OffGridDurationHasNoSlots | components/client/service-booking.tsx:382-393 | as written, a service whose duration is not a multiple of 30 minutes gets no slot at all |
| SlotGeneration.HalfHourServiceOnlyAtHalfPast | components/client/service-booking.tsx:382-393 | as written, a 30-minute service is offered only at half past the hour |
| SlotGeneration.NoClosingCheckAsWritten | components/client/service-booking.tsx:389-393 | as written, a free 120-minute service is offered at 16:00, ending after 17:00 |
| SlotGeneration.IntendedSlotsWithinHours | components/client/service-booking.tsx:392 | under the close-of-business rule, a start is offered exactly when it is a candidate, ends by 17:00 and is free |
| SlotGeneration.KeptStartsAvoidBlocked | components/client/service-booking.tsx:398-404 | no offered start clashes with any blocked range under the source's test |
| SlotGeneration.OverlapIsHalfOpen | components/client/service-booking.tsx:399-403 | on valid time texts, the three-clause test is half-open interval overlap |
| SlotGeneration.BackToBackAndSymmetry | components/client/service-booking.tsx:399-403 | back-to-back ranges do not clash, and the test is symmetric |
| SlotGeneration.OfferedSlotsAreFree | components/client/service-booking.tsx:382-412 | with well-formed blocked ranges, no offered slot shares a minute with a blocked range |
| SlotGeneration.SingleBlockedOverlap | components/client/service-booking.tsx:398-404 | against one blocked range, the test is numeric half-open overlap |
| SlotGeneration.KeptAsWrittenSingle | components/client/service-booking.tsx:382-412 | with one booking, a candidate is offered as written exactly when it ends on the hour and does not overlap |
| SlotGeneration.KeptIntendedSingle | components/client/service-booking.tsx:382-412 | with one booking, a candidate is offered under the intended rule exactly when it ends by 17:00 and does not overlap |
| SlotGeneration.ThirtyMinuteAsWritten | components/client/service-booking.tsx:382-412 | a 30-minute service with a 10:00-10:30 booking, as written: 09:30 and 10:30 are offered, 09:00 and 10:00 are not |
| SlotGeneration.ThirtyMinuteIntended | components/client/service-booking.tsx:382-412 | the same day under the intended rule: 09:00 and 09:30 are offered, 10:00 is not |
| BookingFlow.OrElse | components/client/service-booking.tsx:423 | an error message is shown when it is non-empty, otherwise the fallback |
| BookingFlow.AuthFailure | components/client/service-booking.tsx:485-491 | without a signed-in user, the error has a non-empty message |
| BookingFlow.BlockingRows | components/client/service-booking.tsx:351-367 | the rows that block are exactly those of this provider, on this date, not cancelled |
| BookingFlow.Ranges | components/client/service-booking.tsx:375-379 | one blocked range per selected row, holding its start and end time |
| BookingFlow.SlotsFor | components/client/service-booking.tsx:317-430 | without a date or service, or after a failed query, no slots are offered |
| BookingFlow.FindService | components/client/service-booking.tsx:440 | finds the first listed service with the id, and none exactly when no service has it |
| BookingFlow.FindSlot | components/client/service-booking.tsx:493-497 | finds the first offered slot with that start, and none exactly when no slot has it |
| BookingFlow.OwnBookings | components/client/service-booking.tsx:288 | the list holds exactly the rows of the signed-in client |
| BookingFlow.CancelledIn | components/client/service-booking.tsx:570-577 | exactly the rows with this id and this client become cancelled; every other row is unchanged |
| BookingFlow.BookingTable.constructor | components/client/service-booking.tsx:500-510 | the table starts with the given rows |
| BookingFlow.BookingTable.Insert | components/client/service-booking.tsx:500-510 | an insert appends exactly the one row |
| BookingFlow.BookingTable.CancelOwned | components/client/service-booking.tsx:570-577 | the table becomes CancelledIn of the old rows |
| BookingFlow.ServiceBooking.constructor | components/client/service-booking.tsx:77-90 | the hooks start empty: no selection, no slots, no notes, dialog closed |
| BookingFlow.ServiceBooking.FetchBookings | components/client/service-booking.tsx:251-315 | signed in with no failure: the client's own rows, with no error; otherwise an error message and a toast |
| BookingFlow.ServiceBooking.GenerateTimeSlots | components/client/service-booking.tsx:317-430 | returns SlotsFor, and sets the error and toast of each failure case |
| BookingFlow.ServiceBooking.HandleServiceSelect | components/client/service-booking.tsx:439-450 | selects the first listed service with the id and clears the slot; with a date also selected it regenerates the slots, and the slot error and the toast are those of generateTimeSlots's four cases (cleared, or the failed query's message with the error toast); otherwise it empties the slots |
| BookingFlow.ServiceBooking.HandleDateSelect | components/client/service-booking.tsx:452-462 | selects the date and clears the slot; with a service also selected it regenerates the slots, and the slot error and the toast are those of generateTimeSlots's four cases; otherwise it empties the slots |
| BookingFlow.ServiceBooking.SelectTimeSlot | components/client/service-booking.tsx:670-676 | stores the chosen slot's start |
| BookingFlow.ServiceBooking.EditNotes | components/client/service-booking.tsx:698 | stores the notes |
| BookingFlow.ServiceBooking.Submit | components/client/service-booking.tsx:464-544 | an incomplete form, a missing user, an unknown slot or a failed insert each gives its toast and changes nothing; success appends one pending row for the selected slot, resets and closes the form, and shows the success toast followed by the refresh's toasts; the refresh either loads the client's rows or keeps the old list and records its error message |
| BookingFlow.ServiceBooking.Cancel | components/client/service-booking.tsx:546-604 | unconfirmed: nothing; a missing user or a failed update: an error toast and an unchanged table; success: the client's rows with that id are cancelled, and the success toast is followed by the refresh's toasts; the refresh either loads the client's rows or keeps the old list and records its error message |
| BookingFlow.RebookingExcludesSlot | components/client/service-booking.tsx:351-412 | after a booking is made from an offered slot, that start is no longer offered for the service on that date |
| BookingFlow.NewRowBlocks | components/client/service-booking.tsx:351-404 | a new pending row of the provider on that date blocks its own slot |
| BookingFlow.StartNotOffered | components/client/service-booking.tsx:406-412 | a start that is not kept is the start of no offered slot |
| BookingFlow.CancelledBookingStopsBlocking | components/client/service-booking.tsx:355-357 | after a cancellation, the cancelled row no longer blocks a slot |
| BookingFlow.CancelIgnoresStatus | components/client/service-booking.tsx:570-577 | the button hides for a completed booking, but the update itself cancels it regardless of status, and only the client's own row |
| BookingFlow.EndInstant | components/client/service-booking.tsx:832-859 | a booking has an end instant exactly when its end text parses, and the instant is its day plus the parsed end time ("24:00" being the next midnight) |
| BookingFlow.LateSlotOffered | components/client/service-booking.tsx:382-412 | with no bookings, a 450-minute service is offered at 16:30, ending at 24:00 |
| BookingFlow.MidnightText | components/client/service-booking.tsx:395 | the end time 24:00 is written "24:00" |
| BookingFlow.LateSlotEndsAtMidnight | components/client/service-booking.tsx:832-841 | a pending booking ending at "24:00" ends at the next midnight and is upcoming until then |
| BookingFlow.TabsPartition | components/client/service-booking.tsx:832-859 | a booking with a valid end is in exactly one of the upcoming, past and cancelled tabs |
| BookingFlow.InvalidEndShowsNowhere | components/client/service-booking.tsx:832-859 | a pending or confirmed booking whose end does not parse shows in no tab |
| BookingFlow.BookedSlotUpcomingUntilEnd | components/client/service-booking.tsx:832-841 | a pending booking from a slot of the day is upcoming exactly until its end instant |
| BookingFlow.Upcoming | components/client/service-booking.tsx:832-841 | the upcoming tab lists exactly the bookings that are upcoming |
| BookingFlow.Past | components/client/service-booking.tsx:843-852 | the past tab lists exactly the bookings that are past |
| BookingFlow.CancelledTab | components/client/service-booking.tsx:854-859 | the cancelled tab lists exactly the cancelled bookings |
| BookingFlow.TabsCoverList | components/client/service-booking.tsx:832-859 | when every end parses, the three tabs together list as many entries as the list has |
| BookingFlow.Weekday | components/client/service-booking.tsx:645 | the weekday number lies in 0..6 |
| BookingFlow.WeekdayNext | components/client/service-booking.tsx:645 | the next day's weekday is one more, modulo 7 |
| BookingFlow.OpenDayWithinThree | components/client/service-booking.tsx:642-648 | from today on, of any three consecutive days at least one can be picked |
| BookingFlow.TodayOpenOnWeekdays | components/client/service-booking.tsx:642-648 | today can be picked exactly when it is Monday to Friday |
| RevenueOverview.InitialBucket | components/dashboard/overview.tsx:24-31 | bucket i starts with the month's name, total 0 and month number i+1 |
| RevenueOverview.FirstUnplaceable | components/dashboard/overview.tsx:45-53 | the index of the first qualifying row with an invalid date, or the length when there is none |
| RevenueOverview.AggregateRevenue | components/dashboard/overview.tsx:45-53 | the loop fails exactly when some qualifying row has an invalid date; every bucket gains its month's fees from the rows before that row |
| RevenueOverview.Aggregated | components/dashboard/overview.tsx:27-53 | after a complete aggregation, bar m holds month m's name, its total and its number |
| RevenueOverview.RevenueChart.constructor | components/dashboard/overview.tsx:9-10 | no data yet, and loading |
| RevenueOverview.RevenueChart.FetchRevenueData | components/dashboard/overview.tsx:13-94 | no session leaves the data; an error, an empty result or a throwing row shows the sample series; null shows twelve zero bars; otherwise the aggregated totals; loading ends |
| RevenueOverview.OneRowOneBucket | components/dashboard/overview.tsx:47-51 | a qualifying row adds its fee to its own month and to no other |
| RevenueOverview.NonQualifyingAddsNothing | components/dashboard/overview.tsx:47 | a row without a date or a fee adds nothing anywhere |
| RevenueOverview.RowCountedOnce | components/dashboard/overview.tsx:45-53 | a placeable row is counted in exactly one of the twelve months, or in none when it does not qualify |
| RevenueOverview.MonthsBelowAppend | components/dashboard/overview.tsx:45-53 | adding a row adds its contributions to the month sums |
| RevenueOverview.TotalsAddUp | components/dashboard/overview.tsx:45-53 | the twelve totals add up to the fees of the qualifying rows: nothing is lost and nothing is counted twice |
| RevenueOverview.ChartTotal | components/dashboard/overview.tsx:45-73 | the bars of the aggregated chart add up to the qualifying fees |
| RevenueOverview.BarsAreMonths | components/dashboard/overview.tsx:27-53 | the first n bars sum to the first n month totals |
| RevenueOverview.EmptyIsNotZero | components/dashboard/overview.tsx:56-70 | the fallback is the sample series (first bar 4000) with the month names, whereas null gives twelve zero bars |
| SignupValidation.ParseUserType | components/signup-form.tsx:18 | accepts exactly "business", "freelancer" and "individual" |
| SignupValidation.LookaheadFindsIff | components/signup-form.tsx:23 | a lookahead `(?=.*[c])` succeeds exactly when a character of the class comes before any line break |
| SignupValidation.PasswordIssues | components/signup-form.tsx:20-25 | no issue exactly when the password has 8 or more characters and all four classes; each check is reported exactly when it fails; the schema reports the password issues through these |
| SignupValidation.DigitsToEndIff | components/signup-form.tsx:33-35 | `\d{n}$` matches exactly n ASCII digits |
| SignupValidation.PhoneMatchesIff | components/signup-form.tsx:33-35 | a phone number is accepted exactly when it is eight ASCII digits, with or without "+968" before them |
| SignupValidation.FailingOf | components/signup-form.tsx:16-54 | the reported issues are exactly the failing checks that the schema reaches |
| SignupValidation.SignupIssues | components/signup-form.tsx:16-54 | the form's issues are exactly the reported ones |
| SignupValidation.ValidIff | components/signup-form.tsx:16-54 | a form is valid exactly when every check passes: enum, email, password, url, phone, confirmation and required fields |
| SignupValidation.MismatchReportedOnConfirm | components/signup-form.tsx:37-40 | differing passwords are reported on confirmPassword with "Passwords don't match" |
| SignupValidation.BadUserTypeHidesRefinements | components/signup-form.tsx:18-54 | with a user type outside the enum, neither refinement is reported |
| SignupValidation.IndividualNeedsNothingMore | components/signup-form.tsx:41-50 | an individual has no further required fields |
| SignupValidation.PhoneAccepted | components/signup-form.tsx:33-35 | "+96812345678" and "12345678" are accepted |
| SignupValidation.PhoneRefused | components/signup-form.tsx:33-35 | seven digits after the prefix, or another country code, are refused |
| SignupValidation.WeakPasswordRejected | components/signup-form.tsx:20-25 | "weak" fails both password checks |
| SignupValidation.StrongPasswordAccepted | components/signup-form.tsx:20-25 | "StrongPassword123!" passes both password checks |
| SignupValidation.ClassAfterLineBreakMissed | components/signup-form.tsx:23 | a class found only after a line break does not satisfy the lookahead |
| SignupValidation.InvalidInputReported | __tests__/signup.e2e.test.ts:28-45 | a business form with a refused email and the password "weak" gets the email message and the length message, and is not valid |
| SignupValidation.SignupScenarioValid | __tests__/signup.e2e.test.ts:15-44 | the business form of the sign-up scenario is valid |
| SimpleAccordion.InitialOpen | components/ui/simple-accordion.tsx:36-38 | a list is kept as given, a non-empty string becomes a one-element list, and anything else gives the empty list |
| SimpleAccordion.Without | components/ui/simple-accordion.tsx:50 | filtering never lengthens the list |
| SimpleAccordion.ModeOption | components/ui/simple-accordion.tsx:30 | `type` defaults to single |
| SimpleAccordion.CollapsibleOption | components/ui/simple-accordion.tsx:31 | `collapsible` defaults to true |
| SimpleAccordion.Accordion.constructor | components/ui/simple-accordion.tsx:29-38 | the open list starts as InitialOpen; the mode and option are the props with their defaults applied |
| SimpleAccordion.Accordion.Toggle | components/ui/simple-accordion.tsx:40-57 | the open list becomes the toggled list |
| SimpleAccordion.SingleAtMostOne | components/ui/simple-accordion.tsx:42-47 | in single mode a toggle leaves at most one value open |
| SimpleAccordion.SingleCollapsible | components/ui/simple-accordion.tsx:43-47 | single collapsible mode: toggling an open value closes all, otherwise only that value is open |
| SimpleAccordion.SingleFixedIdempotent | components/ui/simple-accordion.tsx:43-47 | single non-collapsible mode: a toggle always opens exactly that value, and toggling it again changes nothing |
| SimpleAccordion.WithoutMembers | components/ui/simple-accordion.tsx:50 | the filter drops exactly the copies of the value |
| SimpleAccordion.MultipleFlips | components/ui/simple-accordion.tsx:49-53 | multiple mode: the toggled value's membership flips, and every other value keeps its membership |
| SimpleAccordion.WithoutAbsent | components/ui/simple-accordion.tsx:50 | removing an absent value leaves the list unchanged |
| SimpleAccordion.WithoutAppend | components/ui/simple-accordion.tsx:50 | removal distributes over concatenation |
| SimpleAccordion.MultipleToggleTwice | components/ui/simple-accordion.tsx:49-53 | multiple mode: toggling a closed value twice restores the exact list |
| SimpleAccordion.MultipleDropsAllCopies | components/ui/simple-accordion.tsx:49-53 | a value listed twice is dropped in both places, so a second toggle re-adds it at the end |
| SimpleCarousel.LoopOption | components/ui/simple-carousel.tsx:35 | `loop` defaults to true |
| SimpleCarousel.NextIndex | components/ui/simple-carousel.tsx:37-45 | at the last slide, next wraps to 0 with looping and stays without; otherwise it adds one |
| SimpleCarousel.PrevIndex | components/ui/simple-carousel.tsx:47-55 | at slide 0, prev wraps to the last slide with looping and stays without; otherwise it subtracts one |
| SimpleCarousel.Carousel.constructor | components/ui/simple-carousel.tsx:32-35 | the index starts at 0 |
| SimpleCarousel.Carousel.Next | components/ui/simple-carousel.tsx:37-45 | the index becomes NextIndex of the old index |
| SimpleCarousel.Carousel.Prev | components/ui/simple-carousel.tsx:47-55 | the index becomes PrevIndex of the old index |
| SimpleCarousel.Carousel.GoTo | components/ui/simple-carousel.tsx:131-137 | a dot button sets the index to its own position, which is in range |
| SimpleCarousel.StepsStayInRange | components/ui/simple-carousel.tsx:37-55 | with at least one slide, next and prev keep the index in range |
| SimpleCarousel.EmptyCarouselNextLeavesRange | components/ui/simple-carousel.tsx:37-45 | with no slides, next moves the index to 1, out of range |
| SimpleCarousel.LoopPrevUndoesNext | components/ui/simple-carousel.tsx:37-55 | with looping, prev and next undo each other |
| SimpleCarousel.NextTimesAdd | components/ui/simple-carousel.tsx:37-45 | n + k presses of next are n presses followed by k presses |
| SimpleCarousel.NextTimesClimbs | components/ui/simple-carousel.tsx:37-45 | below the last slide, each press of next adds one |
| SimpleCarousel.FullCycleReturns | components/ui/simple-carousel.tsx:37-45 | with looping, as many presses of next as there are slides return to the start |
| SimpleCarousel.NoLoopEnds | components/ui/simple-carousel.tsx:37-55 | without looping the ends hold still, and elsewhere each step moves by one |
| UsersInitials.OrEmpty | app/dashboard/users/page.tsx:73 | a null name reads as "" |
| UsersInitials.FirstChar | app/dashboard/users/page.tsx:73 | `charAt(0)` is the first character, or "" for the empty string |
| UsersInitials.Upper | app/dashboard/users/page.tsx:73 | upper-casing keeps the length and maps each character |
| UsersInitials.GetInitials | app/dashboard/users/page.tsx:72-74 | the initials are one or two characters, never empty |
| UsersInitials.InitialsAreFirstLetters | app/dashboard/users/page.tsx:73 | the initials are the upper-cased first letters of the names present, or "U" when both are missing |
| UsersInitials.NullIsEmpty | app/dashboard/users/page.tsx:73 | a null name and an empty name give the same initials |
| UsersInitials.Examples | app/dashboard/users/page.tsx:73 | "ada lovelace" gives "AL", no names give "U", and "" with "smith" gives "S" |
| AppointmentsPage.WithStatus | app/appointments/page.tsx:45 | every appointment with the id gets the new status; the others stay unchanged, in place |
| AppointmentsPage.AppointmentsView.constructor | app/appointments/page.tsx:16-34 | the list starts as fetched |
| AppointmentsPage.AppointmentsView.HandleStatusChange | app/appointments/page.tsx:39-47 | the list changes only when the update reported no error, and then by WithStatus |
| AppointmentsPage.StatusChangeKeepsIds | app/appointments/page.tsx:45 | a status change keeps the list's appointments in place: the sequence of ids is unchanged |
| AppointmentsPage.StatusChangeIdempotent | app/appointments/page.tsx:45 | applying the same change twice is applying it once |
| AppointmentsPage.CancelledCanBeConfirmed | app/appointments/page.tsx:72-79 | there is no status guard: a cancelled appointment can be confirmed again |
| AdminUsersPage.RoleName | types/supabase.ts:95 | each role has one of the three role names |
| AdminUsersPage.FailureMessage | app/dashboard/admin/users/page.tsx:76-78 | the server's error is shown when it is non-empty, otherwise "Failed to update role" |
| AdminUsersPage.WithRole | app/dashboard/admin/users/page.tsx:81 | every user with the id gets the new role; the others stay unchanged, in place |
| AdminUsersPage.AdminUsersView.constructor | app/dashboard/admin/users/page.tsx:15-46 | the list starts as fetched |
| AdminUsersPage.AdminUsersView.HandleRoleChange | app/dashboard/admin/users/page.tsx:55-96 | without a session: no request and an error toast; a failed response: its error and an unchanged list; success: WithRole and a success toast |
| AdminUsersPage.RoleChangeKeepsIds | app/dashboard/admin/users/page.tsx:81 | a role change keeps the list's users in place: the sequence of ids is unchanged |
| AdminUsersPage.RoleChangeLastWins | app/dashboard/admin/users/page.tsx:81 | two role changes of the same user amount to the later one |
| AdminUsersPage.RoleChangeOfUnknownUser | app/dashboard/admin/users/page.tsx:81 | an id that is not in the list leaves the list unchanged |

## Left out

- Supabase I/O: the auth calls, queries, realtime channels and edge function
  calls. Their answers are parameters. Timeouts and retries are not modelled.
- Loading flags and spinners, except the revenue chart's `loading`, which its
  contract states.
- Toast rendering and internationalised message lookup: toasts are plain
  records of title, text and whether they are destructive.
- Dates and time zones. `new Date(...)`, `getMonth()`, `getDay()` and the
  current instant are parameters or day and minute numbers. An end time is read
  as "HH:MM" of the ECMAScript date-time format: hours 00-23, plus "24:00" for
  the midnight that ends the day. A stored "HH:MM:SS" value is not read and
  counts as an end that does not parse.
- Fees are integers in the smallest currency unit. Floating-point sums are not
  modelled.
- The database's ordering of fetched rows: lists come back in table order.
- The `created_at`/`updated_at` timestamps and the services' `is_active` filter
  in the service query (fetchServices, lines 204-249 of
  components/client/service-booking.tsx). The service list is an input to
  `ServiceBooking`.
- The dialog's own Cancel button, which only closes the dialog.
- SignupValidation.Fails: the verdicts of zod's `email()` and `url()` are
  inputs, and the library's default messages are left as None.
- SignupValidation.LookaheadFinds: strings are sequences of characters, with no
  difference between UTF-16 units and code points.
- UsersInitials.UpperChar: upper-casing is modelled on ASCII letters only.
  Other characters are kept as they are, whereas `toUpperCase` also maps
  non-ASCII letters.
- The admin page's JSON parse of the response is not modelled: the response
  arrives as its `ok` flag and its `error` field.
- SimpleAccordion.Without: its own contract gives only the length bound. The
  membership property is WithoutMembers.

## Findings

| source | as written | input that shows it | evidently intended | confidence | as-written member | corrected member |
|---|---|---|---|---|---|---|
| components/client/service-booking.tsx:389-393 | The end-time check compares the inner `endHour` with itself, so it drops a slot exactly when its end minute is not 0. Nothing checks 17:00. | A free 120-minute service is offered at 16:00-18:00. A 30-minute service is offered only at half past (09:30, 10:30, …). A 45-minute service gets no slot at all. | Drop a slot that ends after 17:00, as the comment on line 392 says. | not executed | SlotGeneration.NoClosingCheckAsWritten | SlotGeneration.IntendedSlotsWithinHours |
| components/client/service-booking.tsx:389-393 | A 30-minute service beside a 10:00-10:30 booking: of the starts 09:00-10:30, only 09:30 and 10:30 are offered; every later :30 start up to 16:30 is offered too, and no :00 start is. | Duration 30, one booking 10:00-10:30. | 09:00, 09:30, 10:30, … up to 16:30. | not executed | SlotGeneration.ThirtyMinuteAsWritten | SlotGeneration.ThirtyMinuteIntended |
