/**
 * The client's booking screen (components/client/service-booking.tsx) around the
 * slot generator: choosing a service, a date and a slot, submitting a booking,
 * cancelling one, refreshing the client's own list, the three tabs the list is
 * split into, and the date picker's disabled days.
 *
 * The bookings table is a class of its own, updated in place by inserts and
 * cancellations; the component's state hooks are the fields of ServiceBooking.
 * Every answer from outside (the signed-in user, a failed query, the id the
 * database gives a new row, the user's confirmation) is a parameter.
 * Dates are day numbers (day 0 is 1970-01-01); instants are minutes from then.
 */
module BookingFlow {
  import opened ClockText
  import opened SlotGeneration

  /** The four statuses of a booking (lines 51-71). */
  datatype Status = Pending | Confirmed | Cancelled | Completed

  /** The fields of a provider_services row the flow reads (lines 28-43). */
  datatype Service = Service(id: string, name: string, duration: nat, providerId: string)

  /** A bookings row (lines 51-71). */
  datatype Booking = Booking(
    id: string,
    clientId: string,
    providerId: string,
    serviceId: string,
    bookingDate: int,
    startTime: string,
    endTime: string,
    status: Status,
    notes: string)

  datatype Toast = Toast(title: string, description: string, destructive: bool)

  /** What `supabase.auth.getUser()` answers. */
  datatype Auth = AuthError(message: string) | NoUser | SignedIn(userId: string)

  /** A query that returns a value, or fails with a message. */
  datatype Fetch<T> = Fetched(value: T) | FetchFailed(message: string)

  /** `message || fallback`. */
  function OrElse(message: string, fallback: string): (r: string)
    ensures message != "" ==> r == message
    ensures message == "" ==> r == fallback
  {
    if message != "" then message else fallback
  }

  /** The message of the error thrown when no user is signed in (lines 485-491). */
  function AuthFailure(auth: Auth): (m: string)
    requires !auth.SignedIn?
    ensures m != ""
  {
    match auth
    case AuthError(message) => "Authentication error: " + message
    case NoUser => "User not authenticated"
  }

  // ---------------------------------------------------------------------------
  // The rows that block slots, and the slots offered

  /** The filter of lines 355-357: this provider, this date, not cancelled. */
  predicate Blocks(b: Booking, providerId: string, date: int)
  {
    b.providerId == providerId && b.bookingDate == date && b.status != Cancelled
  }

  function BlockingRows(rows: seq<Booking>, providerId: string, date: int): (r: seq<Booking>)
    ensures forall b :: b in r <==> b in rows && Blocks(b, providerId, date)
    ensures |r| <= |rows|
  {
    if rows == [] then []
    else if Blocks(rows[0], providerId, date) then [rows[0]] + BlockingRows(rows[1..], providerId, date)
    else BlockingRows(rows[1..], providerId, date)
  }

  /** Lines 375-379: the start and end time of each selected row. */
  function Ranges(rows: seq<Booking>): (r: seq<Blocked>)
    ensures |r| == |rows|
    ensures forall i :: 0 <= i < |rows| ==> r[i] == Blocked(rows[i].startTime, rows[i].endTime)
  {
    if rows == [] then [] else [Blocked(rows[0].startTime, rows[0].endTime)] + Ranges(rows[1..])
  }

  function BlockedTimes(rows: seq<Booking>, providerId: string, date: int): seq<Blocked>
  {
    Ranges(BlockingRows(rows, providerId, date))
  }

  /** The slots generateTimeSlots offers for a service on a date, given the rows of
      the bookings table. */
  function AvailableSlots(rows: seq<Booking>, service: Service, date: int): seq<Slot>
  {
    SlotsOf(KeptStarts(AsWritten, service.duration, BlockedTimes(rows, service.providerId, date)), service.duration)
  }

  /** What generateTimeSlots returns (lines 317-430): nothing without a date or a
      service id, nothing when a query fails, the offered slots otherwise. */
  function SlotsFor(date: Option<int>, serviceId: string, serviceFetch: Fetch<Service>,
                    bookingsFailure: Option<string>, rows: seq<Booking>): (slots: seq<Slot>)
    ensures date.None? || serviceId == "" || serviceFetch.FetchFailed? || bookingsFailure.Some? ==> slots == []
  {
    if date.None? || serviceId == "" then []
    else if serviceFetch.FetchFailed? || bookingsFailure.Some? then []
    else AvailableSlots(rows, serviceFetch.value, date.value)
  }

  /** `services.find((s) => s.id === serviceId) || null` (line 440): the first
      listed service with the id. */
  function FindService(services: seq<Service>, serviceId: string): (r: Option<Service>)
    ensures r.None? <==> forall i :: 0 <= i < |services| ==> services[i].id != serviceId
    ensures r.Some? ==> r.value in services && r.value.id == serviceId
    ensures r.Some? ==>
      exists k :: 0 <= k < |services| && services[k] == r.value
                  && forall j :: 0 <= j < k ==> services[j].id != serviceId
  {
    if services == [] then None
    else if services[0].id == serviceId then Some(services[0])
    else FindService(services[1..], serviceId)
  }

  /** `availableTimeSlots.find((slot) => slot.start === selectedTimeSlot)` (line 493):
      the first offered slot with that start. */
  function FindSlot(slots: seq<Slot>, start: string): (r: Option<Slot>)
    ensures r.None? <==> forall i :: 0 <= i < |slots| ==> slots[i].start != start
    ensures r.Some? ==> r.value in slots && r.value.start == start
    ensures r.Some? ==>
      exists k :: 0 <= k < |slots| && slots[k] == r.value
                  && forall j :: 0 <= j < k ==> slots[j].start != start
  {
    if slots == [] then None
    else if slots[0].start == start then Some(slots[0])
    else FindSlot(slots[1..], start)
  }

  /** The row inserted at lines 500-510. */
  function NewBooking(id: string, userId: string, service: Service, date: int, slot: Slot, notes: string): Booking
  {
    Booking(id, userId, service.providerId, service.id, date, slot.start, slot.end, Pending, notes)
  }

  /** The client's own rows, as fetchBookings selects them (line 288). */
  function OwnBookings(rows: seq<Booking>, clientId: string): (r: seq<Booking>)
    ensures forall b :: b in r <==> b in rows && b.clientId == clientId
    ensures |r| <= |rows|
  {
    if rows == [] then []
    else if rows[0].clientId == clientId then [rows[0]] + OwnBookings(rows[1..], clientId)
    else OwnBookings(rows[1..], clientId)
  }

  /** The update of lines 570-577: status "cancelled" on the rows with this id that
      belong to this client, and on no other row. */
  function CancelledIn(rows: seq<Booking>, bookingId: string, clientId: string): (r: seq<Booking>)
    ensures |r| == |rows|
    ensures forall i :: 0 <= i < |rows| ==>
      r[i] == if rows[i].id == bookingId && rows[i].clientId == clientId then rows[i].(status := Cancelled)
              else rows[i]
  {
    if rows == [] then []
    else
      var b := rows[0];
      [if b.id == bookingId && b.clientId == clientId then b.(status := Cancelled) else b]
        + CancelledIn(rows[1..], bookingId, clientId)
  }

  // ---------------------------------------------------------------------------
  // The bookings table and the component

  /** The bookings table, as far as this screen writes it. */
  class BookingTable {
    var rows: seq<Booking>

    constructor(rows: seq<Booking>)
      ensures this.rows == rows
    {
      this.rows := rows;
    }

    /** `insert` of one row. */
    method Insert(b: Booking)
      modifies this
      ensures rows == old(rows) + [b]
    {
      rows := rows + [b];
    }

    /** The status update of lines 570-577. */
    method CancelOwned(bookingId: string, clientId: string)
      modifies this
      ensures rows == CancelledIn(old(rows), bookingId, clientId)
    {
      rows := CancelledIn(rows, bookingId, clientId);
    }
  }

  const IncompleteToast := Toast("Incomplete booking", "Please select a service, date, and time slot", true)
  const BookedToast := Toast("Booking successful", "Your booking request has been submitted", false)
  const CancelledToast := Toast("Booking cancelled", "Your booking has been cancelled successfully", false)
  const SlotsFailedToast := Toast("Error", "Failed to load available time slots", true)

  /** What fetchBookings leaves in bookingsError: the auth message, the query's
      message, or nothing when the rows arrive (lines 251-315). */
  function RefreshError(auth: Auth, failure: Option<string>): Option<string>
  {
    if !auth.SignedIn? then Some(AuthFailure(auth))
    else if failure.Some? then Some(OrElse(failure.value, "Failed to load bookings"))
    else None
  }

  /** The toasts fetchBookings shows: one destructive toast when it fails, none
      when the rows arrive. */
  function RefreshToasts(auth: Auth, failure: Option<string>): seq<Toast>
  {
    if !auth.SignedIn? then [Toast("Error fetching bookings", AuthFailure(auth), true)]
    else if failure.Some? then [Toast("Error fetching bookings", OrElse(failure.value, "Please try again later"), true)]
    else []
  }

  /** The state hooks of ServiceBooking (lines 77-90) that the flow reads and
      writes; `table` is the database it talks to. */
  class ServiceBooking {
    const table: BookingTable
    var services: seq<Service>
    var bookings: seq<Booking>
    var bookingsError: Option<string>
    var selectedService: Option<Service>
    var selectedDate: Option<int>
    var availableTimeSlots: seq<Slot>
    var timeSlotsError: Option<string>
    var selectedTimeSlot: Option<string>
    var bookingNotes: string
    var isDialogOpen: bool

    /** The initial state of the hooks, with the services the mount-time fetch
        returned (lines 204-249). */
    constructor(table: BookingTable, services: seq<Service>)
      ensures this.table == table && this.services == services
      ensures bookings == [] && bookingsError == None
      ensures selectedService == None && selectedDate == None && selectedTimeSlot == None
      ensures availableTimeSlots == [] && timeSlotsError == None
      ensures bookingNotes == "" && !isDialogOpen
    {
      this.table := table;
      this.services := services;
      bookings := [];
      bookingsError := None;
      selectedService := None;
      selectedDate := None;
      availableTimeSlots := [];
      timeSlotsError := None;
      selectedTimeSlot := None;
      bookingNotes := "";
      isDialogOpen := false;
    }

    /** The submit button is enabled (line 710): a service, a date and a non-empty
        slot start are selected. */
    predicate Ready()
      reads this
    {
      selectedService.Some? && selectedDate.Some? && selectedTimeSlot.Some? && selectedTimeSlot.value != ""
    }

    /** fetchBookings (lines 251-315): the client's own rows, or an error message
        and a toast, the list kept as it was. The order the query asks for is not
        modelled. */
    method FetchBookings(auth: Auth, failure: Option<string>) returns (toast: Option<Toast>)
      modifies this`bookings, this`bookingsError
      ensures !auth.SignedIn? ==>
        bookings == old(bookings) && bookingsError == Some(AuthFailure(auth))
        && toast == Some(Toast("Error fetching bookings", AuthFailure(auth), true))
      ensures auth.SignedIn? && failure.Some? ==>
        bookings == old(bookings) && bookingsError == Some(OrElse(failure.value, "Failed to load bookings"))
        && toast == Some(Toast("Error fetching bookings", OrElse(failure.value, "Please try again later"), true))
      ensures auth.SignedIn? && failure.None? ==>
        bookings == OwnBookings(table.rows, auth.userId) && bookingsError == None && toast == None
    {
      bookingsError := None;
      if !auth.SignedIn? {
        bookingsError := Some(AuthFailure(auth));
        toast := Some(Toast("Error fetching bookings", AuthFailure(auth), true));
        return;
      }
      if failure.Some? {
        bookingsError := Some(OrElse(failure.value, "Failed to load bookings"));
        toast := Some(Toast("Error fetching bookings", OrElse(failure.value, "Please try again later"), true));
        return;
      }
      bookings := OwnBookings(table.rows, auth.userId);
      toast := None;
    }

    /** generateTimeSlots (lines 317-430). `serviceFetch` is the service row the
        query by id returns and `bookingsFailure` the error of the query for the
        provider's bookings, if any; the rows come from the table. */
    method GenerateTimeSlots(date: Option<int>, serviceId: string, serviceFetch: Fetch<Service>,
                             bookingsFailure: Option<string>)
      returns (slots: seq<Slot>, toast: Option<Toast>)
      modifies this`timeSlotsError
      ensures slots == SlotsFor(date, serviceId, serviceFetch, bookingsFailure, table.rows)
      ensures date.None? || serviceId == "" ==> timeSlotsError == None && toast == None
      ensures date.Some? && serviceId != "" && serviceFetch.FetchFailed?
        ==> (timeSlotsError == Some(OrElse(serviceFetch.message, "Failed to load available time slots"))
             && toast == Some(SlotsFailedToast))
      ensures date.Some? && serviceId != "" && serviceFetch.Fetched? && bookingsFailure.Some?
        ==> (timeSlotsError == Some(OrElse(bookingsFailure.value, "Failed to load available time slots"))
             && toast == Some(SlotsFailedToast))
      ensures date.Some? && serviceId != "" && serviceFetch.Fetched? && bookingsFailure.None?
        ==> timeSlotsError == None && toast == None
    {
      timeSlotsError := None;
      toast := None;
      if date.None? || serviceId == "" {
        return [], None;
      }
      if serviceFetch.FetchFailed? {
        timeSlotsError := Some(OrElse(serviceFetch.message, "Failed to load available time slots"));
        return [], Some(SlotsFailedToast);
      }
      if bookingsFailure.Some? {
        timeSlotsError := Some(OrElse(bookingsFailure.value, "Failed to load available time slots"));
        return [], Some(SlotsFailedToast);
      }
      var service := serviceFetch.value;
      var blocked := BlockedTimes(table.rows, service.providerId, date.value);
      slots := SlotGeneration.GenerateTimeSlots(service.duration, blocked);
    }

    /** handleServiceSelect (lines 439-450): the listed service with that id
        becomes the selection, the chosen slot is cleared, and the slots are
        regenerated when a date is chosen too. */
    method HandleServiceSelect(serviceId: string, serviceFetch: Fetch<Service>, bookingsFailure: Option<string>)
      returns (toast: Option<Toast>)
      modifies this`selectedService, this`selectedTimeSlot, this`availableTimeSlots, this`timeSlotsError
      ensures selectedService == FindService(services, serviceId)
      ensures selectedTimeSlot == None
      ensures selectedService.Some? && selectedDate.Some? ==>
        var id := selectedService.value.id;
        && availableTimeSlots == SlotsFor(selectedDate, id, serviceFetch, bookingsFailure, table.rows)
        && (id == "" ==> timeSlotsError == None && toast == None)
        && (id != "" && serviceFetch.FetchFailed? ==>
              timeSlotsError == Some(OrElse(serviceFetch.message, "Failed to load available time slots"))
              && toast == Some(SlotsFailedToast))
        && (id != "" && serviceFetch.Fetched? && bookingsFailure.Some? ==>
              timeSlotsError == Some(OrElse(bookingsFailure.value, "Failed to load available time slots"))
              && toast == Some(SlotsFailedToast))
        && (id != "" && serviceFetch.Fetched? && bookingsFailure.None? ==> timeSlotsError == None && toast == None)
      ensures !(selectedService.Some? && selectedDate.Some?) ==>
        availableTimeSlots == [] && timeSlotsError == old(timeSlotsError) && toast == None
    {
      var service := FindService(services, serviceId);
      selectedService := service;
      selectedTimeSlot := None;
      toast := None;
      if service.Some? && selectedDate.Some? {
        var slots;
        slots, toast := GenerateTimeSlots(selectedDate, service.value.id, serviceFetch, bookingsFailure);
        availableTimeSlots := slots;
      } else {
        availableTimeSlots := [];
      }
    }

    /** handleDateSelect (lines 452-462): the same with the date. */
    method HandleDateSelect(date: Option<int>, serviceFetch: Fetch<Service>, bookingsFailure: Option<string>)
      returns (toast: Option<Toast>)
      modifies this`selectedDate, this`selectedTimeSlot, this`availableTimeSlots, this`timeSlotsError
      ensures selectedDate == date
      ensures selectedTimeSlot == None
      ensures date.Some? && selectedService.Some? ==>
        var id := selectedService.value.id;
        && availableTimeSlots == SlotsFor(date, id, serviceFetch, bookingsFailure, table.rows)
        && (id == "" ==> timeSlotsError == None && toast == None)
        && (id != "" && serviceFetch.FetchFailed? ==>
              timeSlotsError == Some(OrElse(serviceFetch.message, "Failed to load available time slots"))
              && toast == Some(SlotsFailedToast))
        && (id != "" && serviceFetch.Fetched? && bookingsFailure.Some? ==>
              timeSlotsError == Some(OrElse(bookingsFailure.value, "Failed to load available time slots"))
              && toast == Some(SlotsFailedToast))
        && (id != "" && serviceFetch.Fetched? && bookingsFailure.None? ==> timeSlotsError == None && toast == None)
      ensures !(date.Some? && selectedService.Some?) ==>
        availableTimeSlots == [] && timeSlotsError == old(timeSlotsError) && toast == None
    {
      selectedDate := date;
      selectedTimeSlot := None;
      toast := None;
      if date.Some? && selectedService.Some? {
        var slots;
        slots, toast := GenerateTimeSlots(date, selectedService.value.id, serviceFetch, bookingsFailure);
        availableTimeSlots := slots;
      } else {
        availableTimeSlots := [];
      }
    }

    /** The slot select (line 670) stores the chosen slot's start. */
    method SelectTimeSlot(start: string)
      modifies this`selectedTimeSlot
      ensures selectedTimeSlot == Some(start)
    {
      selectedTimeSlot := Some(start);
    }

    /** The notes text area (line 698). */
    method EditNotes(notes: string)
      modifies this`bookingNotes
      ensures bookingNotes == notes
    {
      bookingNotes := notes;
    }

    /** handleBookingSubmit (lines 464-544). `newId` is the id the database gives
        the inserted row; `refreshAuth` and `refreshFailure` are what the
        fetchBookings started at line 533 meets. */
    method Submit(auth: Auth, insertFailure: Option<string>, newId: string,
                  refreshAuth: Auth, refreshFailure: Option<string>)
      returns (toasts: seq<Toast>)
      modifies table, this`selectedService, this`selectedDate, this`selectedTimeSlot, this`bookingNotes
      modifies this`isDialogOpen, this`bookings, this`bookingsError
      ensures !old(Ready()) ==> toasts == [IncompleteToast]
      ensures old(Ready()) && !auth.SignedIn? ==> toasts == [Toast("Booking failed", AuthFailure(auth), true)]
      ensures old(Ready()) && auth.SignedIn? && FindSlot(availableTimeSlots, old(selectedTimeSlot).value).None?
        ==> toasts == [Toast("Booking failed", "Selected time slot is no longer available", true)]
      ensures old(Ready()) && auth.SignedIn? && FindSlot(availableTimeSlots, old(selectedTimeSlot).value).Some?
        && insertFailure.Some?
        ==> toasts == [Toast("Booking failed", OrElse(insertFailure.value, "Please try again later"), true)]
      // Every failure leaves the table and the form as they were.
      ensures !old(Booked(auth, insertFailure)) ==>
        table.rows == old(table.rows) && selectedService == old(selectedService)
        && selectedDate == old(selectedDate) && selectedTimeSlot == old(selectedTimeSlot)
        && bookingNotes == old(bookingNotes) && isDialogOpen == old(isDialogOpen)
        && bookings == old(bookings) && bookingsError == old(bookingsError)
      // Success: one pending row for the selected slot, the form reset and closed.
      ensures old(Booked(auth, insertFailure)) ==>
        var slot := FindSlot(availableTimeSlots, old(selectedTimeSlot).value).value;
        && slot in availableTimeSlots && slot.start == old(selectedTimeSlot).value
        && table.rows == old(table.rows)
             + [NewBooking(newId, auth.userId, old(selectedService).value, old(selectedDate).value, slot,
                           old(bookingNotes))]
        && selectedService == None && selectedDate == None && selectedTimeSlot == None
        && bookingNotes == "" && !isDialogOpen
        && toasts == [BookedToast] + RefreshToasts(refreshAuth, refreshFailure)
        && bookingsError == RefreshError(refreshAuth, refreshFailure)
        && (refreshAuth.SignedIn? && refreshFailure.None? ==> bookings == OwnBookings(table.rows, refreshAuth.userId))
        && (!(refreshAuth.SignedIn? && refreshFailure.None?) ==> bookings == old(bookings))
    {
      if !Ready() {
        return [IncompleteToast];
      }
      if !auth.SignedIn? {
        return [Toast("Booking failed", AuthFailure(auth), true)];
      }
      var found := FindSlot(availableTimeSlots, selectedTimeSlot.value);
      if found.None? {
        return [Toast("Booking failed", "Selected time slot is no longer available", true)];
      }
      if insertFailure.Some? {
        return [Toast("Booking failed", OrElse(insertFailure.value, "Please try again later"), true)];
      }
      var row := NewBooking(newId, auth.userId, selectedService.value, selectedDate.value, found.value, bookingNotes);
      table.Insert(row);
      toasts := [BookedToast];
      selectedService := None;
      selectedDate := None;
      selectedTimeSlot := None;
      bookingNotes := "";
      isDialogOpen := false;
      var refreshed := FetchBookings(refreshAuth, refreshFailure);
      if refreshed.Some? {
        toasts := toasts + [refreshed.value];
      }
    }

    /** Whether a submit in the current state inserts a row. */
    predicate Booked(auth: Auth, insertFailure: Option<string>)
      reads this
    {
      Ready() && auth.SignedIn? && FindSlot(availableTimeSlots, selectedTimeSlot.value).Some? && insertFailure.None?
    }

    /** cancelBooking (lines 546-604). `confirmed` is the answer to the confirm
        dialog; the status of the booking is not looked at. */
    method Cancel(bookingId: string, confirmed: bool, auth: Auth, updateFailure: Option<string>,
                  refreshAuth: Auth, refreshFailure: Option<string>)
      returns (toasts: seq<Toast>)
      modifies table, this`bookings, this`bookingsError
      ensures !confirmed ==> toasts == [] && table.rows == old(table.rows)
      ensures confirmed && !auth.SignedIn? ==>
        toasts == [Toast("Error cancelling booking", AuthFailure(auth), true)] && table.rows == old(table.rows)
      ensures confirmed && auth.SignedIn? && updateFailure.Some? ==>
        toasts == [Toast("Error cancelling booking", OrElse(updateFailure.value, "Please try again later"), true)]
        && table.rows == old(table.rows)
      ensures !(confirmed && auth.SignedIn? && updateFailure.None?) ==>
        bookings == old(bookings) && bookingsError == old(bookingsError)
      ensures confirmed && auth.SignedIn? && updateFailure.None? ==>
        table.rows == CancelledIn(old(table.rows), bookingId, auth.userId)
        && toasts == [CancelledToast] + RefreshToasts(refreshAuth, refreshFailure)
        && bookingsError == RefreshError(refreshAuth, refreshFailure)
        && (refreshAuth.SignedIn? && refreshFailure.None? ==> bookings == OwnBookings(table.rows, refreshAuth.userId))
        && (!(refreshAuth.SignedIn? && refreshFailure.None?) ==> bookings == old(bookings))
    {
      if !confirmed {
        return [];
      }
      if !auth.SignedIn? {
        return [Toast("Error cancelling booking", AuthFailure(auth), true)];
      }
      if updateFailure.Some? {
        return [Toast("Error cancelling booking", OrElse(updateFailure.value, "Please try again later"), true)];
      }
      table.CancelOwned(bookingId, auth.userId);
      toasts := [CancelledToast];
      var refreshed := FetchBookings(refreshAuth, refreshFailure);
      if refreshed.Some? {
        toasts := toasts + [refreshed.value];
      }
    }
  }

  // ---------------------------------------------------------------------------
  // Properties of the flow

  /** A booking made from an offered slot blocks that slot: asking again for the
      same service and date no longer offers its start (lines 351-358 with 398-406). */
  lemma RebookingExcludesSlot(rows: seq<Booking>, service: Service, date: int, x: nat, row: Booking)
    requires OnGrid(x) && 0 < service.duration && x + service.duration < 6000
    requires row.providerId == service.providerId && row.bookingDate == date && row.status == Pending
    requires row.startTime == TimeText(x) && row.endTime == TimeText(x + service.duration)
    ensures forall slot :: slot in AvailableSlots(rows + [row], service, date) ==> slot.start != TimeText(x)
  {
    var blocked := BlockedTimes(rows + [row], service.providerId, date);
    NewRowBlocks(rows, service, date, x, row);
    KeptIff(AsWritten, x, service.duration, blocked);
    StartNotOffered(service.duration, blocked, x);
  }

  /** The new row's range is among the blocked ranges and clashes with its own slot. */
  lemma NewRowBlocks(rows: seq<Booking>, service: Service, date: int, x: nat, row: Booking)
    requires 0 < service.duration && x + service.duration < 6000
    requires row.providerId == service.providerId && row.bookingDate == date && row.status == Pending
    requires row.startTime == TimeText(x) && row.endTime == TimeText(x + service.duration)
    ensures !Keep(AsWritten, x, service.duration, BlockedTimes(rows + [row], service.providerId, date))
  {
    var d := service.duration;
    var blockingRows := BlockingRows(rows + [row], service.providerId, date);
    var blocked := Ranges(blockingRows);
    assert row in blockingRows;
    var k :| 0 <= k < |blockingRows| && blockingRows[k] == row;
    assert blocked[k] == Blocked(TimeText(x), TimeText(x + d));
    TimeTextOrder(x, x + d);
    assert OverlapsBlocked(TimeText(x), TimeText(x + d), blocked[k]);
  }

  /** A start that is not kept is the start of no offered slot. */
  lemma StartNotOffered(duration: nat, blocked: seq<Blocked>, x: nat)
    requires x < 6000 && x !in KeptStarts(AsWritten, duration, blocked)
    ensures forall slot :: slot in SlotsOf(KeptStarts(AsWritten, duration, blocked), duration) ==> slot.start != TimeText(x)
  {
    var ks := KeptStarts(AsWritten, duration, blocked);
    forall slot | slot in SlotsOf(ks, duration)
      ensures slot.start != TimeText(x)
    {
      var i :| 0 <= i < |ks| && SlotsOf(ks, duration)[i] == slot;
      OfferedSlotAt(duration, blocked, i);
      LastCandidate(ks[i]);
      TimeTextOrder(ks[i], x);
    }
  }

  /** A cancelled booking no longer blocks its slot, whoever's it was. */
  lemma CancelledBookingStopsBlocking(rows: seq<Booking>, bookingId: string, clientId: string,
                                      providerId: string, date: int)
    ensures forall b :: b in BlockingRows(CancelledIn(rows, bookingId, clientId), providerId, date) ==>
      b.id != bookingId || b.clientId != clientId
  {
  }

  /** The cancel button shows for pending bookings only (lines 956-962). */
  predicate CancelButtonShown(b: Booking)
  {
    b.status == Pending
  }

  /** The update itself does not look at the status: called for a completed
      booking of the client, it cancels it; another client's booking with the same
      id is left alone. */
  lemma CancelIgnoresStatus(b: Booking, other: Booking)
    requires b.status == Completed && other.id == b.id && other.clientId != b.clientId
    ensures !CancelButtonShown(b)
    ensures CancelledIn([b, other], b.id, b.clientId) == [b.(status := Cancelled), other]
  {
  }

  // ---------------------------------------------------------------------------
  // The three tabs (lines 832-859)

  /** The instant `new Date(`${booking_date}T${end_time}`)` stands for, or None for
      an Invalid Date, which compares false with every instant. An end of "24:00"
      is the midnight that ends the booking's day. */
  function EndInstant(b: Booking): (r: Option<int>)
    ensures r.Some? <==> ClockMinutes(b.endTime).Some?
    ensures r.Some? ==> exists m: nat :: m <= 24 * 60 && ClockMinutes(b.endTime) == Some(m) && r.value == b.bookingDate * 1440 + m
  {
    match ClockMinutes(b.endTime)
    case Some(m) => Some(b.bookingDate * 1440 + m)
    case None => None
  }

  predicate InUpcoming(b: Booking, now: int)
  {
    (b.status == Pending || b.status == Confirmed) && EndInstant(b).Some? && EndInstant(b).value >= now
  }

  predicate InPast(b: Booking, now: int)
  {
    b.status == Completed || (b.status != Cancelled && EndInstant(b).Some? && EndInstant(b).value < now)
  }

  predicate InCancelledTab(b: Booking)
  {
    b.status == Cancelled
  }

  /** For a fixed now, a booking whose end is a valid instant is in exactly one tab. */
  lemma TabsPartition(b: Booking, now: int)
    requires EndInstant(b).Some?
    ensures InUpcoming(b, now) || InPast(b, now) || InCancelledTab(b)
    ensures !(InUpcoming(b, now) && InPast(b, now))
    ensures !(InUpcoming(b, now) && InCancelledTab(b))
    ensures !(InPast(b, now) && InCancelledTab(b))
  {
  }

  /** A pending or confirmed booking whose end does not parse shows in no tab. */
  lemma InvalidEndShowsNowhere(b: Booking, now: int)
    requires EndInstant(b).None? && (b.status == Pending || b.status == Confirmed)
    ensures !InUpcoming(b, now) && !InPast(b, now) && !InCancelledTab(b)
  {
  }

  /** A booking made from a slot of the day ends at the instant the slot ends, so
      it stays upcoming until then. */
  lemma BookedSlotUpcomingUntilEnd(b: Booking, endMinutes: nat, now: int)
    requires endMinutes <= 24 * 60 && b.endTime == TimeText(endMinutes)
    requires b.status == Pending
    ensures EndInstant(b) == Some(b.bookingDate * 1440 + endMinutes)
    ensures InUpcoming(b, now) <==> now <= b.bookingDate * 1440 + endMinutes
  {
    ClockMinutesRoundTrip(endMinutes);
  }

  /** Nothing checks 17:00, so a free 450-minute service is offered at 16:30,
      ending at 24:00. */
  lemma LateSlotOffered(start: nat, duration: nat)
    requires start == 16 * 60 + 30 && duration == 450
    ensures start in KeptStarts(AsWritten, duration, [])
    ensures start + duration == 24 * 60
  {
    assert Keep(AsWritten, start, duration, []);
    KeepIsKept(AsWritten, start, duration, []);
  }

  /** The booking made from that slot ends at "24:00": it stays upcoming until the
      midnight that ends its day. */
  lemma LateSlotEndsAtMidnight(b: Booking, start: nat, duration: nat, now: int)
    requires start == 16 * 60 + 30 && duration == 450
    requires b.startTime == TimeText(start) && b.endTime == TimeText(start + duration)
    requires b.status == Pending
    ensures b.endTime == "24:00"
    ensures EndInstant(b) == Some((b.bookingDate + 1) * 1440)
    ensures InUpcoming(b, now) <==> now <= (b.bookingDate + 1) * 1440
  {
    MidnightText(start + duration);
    BookedSlotUpcomingUntilEnd(b, start + duration, now);
  }

  lemma MidnightText(m: nat)
    requires m == 24 * 60
    ensures TimeText(m) == "24:00"
  {
    Pad2Digits(m / 60);
    Pad2Digits(m % 60);
  }

  function Upcoming(bookings: seq<Booking>, now: int): (r: seq<Booking>)
    ensures forall b :: b in r <==> b in bookings && InUpcoming(b, now)
  {
    if bookings == [] then []
    else (if InUpcoming(bookings[0], now) then [bookings[0]] else []) + Upcoming(bookings[1..], now)
  }

  function Past(bookings: seq<Booking>, now: int): (r: seq<Booking>)
    ensures forall b :: b in r <==> b in bookings && InPast(b, now)
  {
    if bookings == [] then []
    else (if InPast(bookings[0], now) then [bookings[0]] else []) + Past(bookings[1..], now)
  }

  function CancelledTab(bookings: seq<Booking>): (r: seq<Booking>)
    ensures forall b :: b in r <==> b in bookings && InCancelledTab(b)
  {
    if bookings == [] then []
    else (if InCancelledTab(bookings[0]) then [bookings[0]] else []) + CancelledTab(bookings[1..])
  }

  /** When every end parses, the three tabs together list every booking exactly
      once: their lengths add up to the length of the list. */
  lemma {:induction false} TabsCoverList(bookings: seq<Booking>, now: int)
    requires forall i :: 0 <= i < |bookings| ==> EndInstant(bookings[i]).Some?
    ensures |Upcoming(bookings, now)| + |Past(bookings, now)| + |CancelledTab(bookings)| == |bookings|
  {
    if bookings != [] {
      TabsPartition(bookings[0], now);
      TabsCoverList(bookings[1..], now);
    }
  }

  // ---------------------------------------------------------------------------
  // The date picker (lines 642-648)

  /** `getDay()`: 0 for Sunday to 6 for Saturday; day 0 was a Thursday. Dafny's `%`
      is never negative, so days before 1970 get their weekday too. */
  function Weekday(day: int): (w: int)
    ensures 0 <= w < 7
  {
    (day + 4) % 7
  }

  /** A day before today, a Saturday or a Sunday cannot be picked. */
  predicate Disabled(day: int, today: int)
  {
    day < today || Weekday(day) == 0 || Weekday(day) == 6
  }

  lemma WeekdayNext(day: int)
    ensures Weekday(day + 1) == (Weekday(day) + 1) % 7
  {
  }

  /** From today on, of any three days in a row at least one can be picked: a
      weekend is two days long. */
  lemma OpenDayWithinThree(day: int, today: int)
    requires day >= today
    ensures !Disabled(day, today) || !Disabled(day + 1, today) || !Disabled(day + 2, today)
  {
    WeekdayNext(day);
    WeekdayNext(day + 1);
  }

  /** Today can be picked exactly when it is a weekday. */
  lemma TodayOpenOnWeekdays(today: int)
    ensures !Disabled(today, today) <==> 1 <= Weekday(today) <= 5
  {
  }
}
