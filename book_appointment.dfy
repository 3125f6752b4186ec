/**
 * The booking screen: pick a service, optionally an employee, a date and a
 * half-hour start time, then book. Booking refuses an incomplete selection,
 * a signed-out user and a slot already held by a booking that is not
 * cancelled; otherwise it inserts one pending booking.
 */
module BookAppointment {

  import opened Wrappers
  import opened Types
  import opened Text
  import opened Backend

  // ------------------------------------------------------------ the start times

  const TIME_SLOTS: seq<string> := [
    "09:00", "09:30", "10:00", "10:30", "11:00", "11:30",
    "12:00", "12:30", "13:00", "13:30", "14:00", "14:30",
    "15:00", "15:30", "16:00", "16:30", "17:00", "17:30"]

  function DigitValue(c: char): int {
    c as int - '0' as int
  }

  /** `HH:MM`: two digits, a colon, two digits. */
  predicate IsClockText(t: string) {
    && |t| == 5 && t[2] == ':'
    && '0' <= t[0] <= '9' && '0' <= t[1] <= '9' && '0' <= t[3] <= '9' && '0' <= t[4] <= '9'
  }

  /** The minutes after midnight that an `HH:MM` text denotes. */
  function ClockMinutes(t: string): int
    requires |t| == 5
  {
    (DigitValue(t[0]) * 10 + DigitValue(t[1])) * 60 + DigitValue(t[3]) * 10 + DigitValue(t[4])
  }

  /** The offered start times run every half hour from 09:00 up to and including 17:30. */
  lemma TimeSlotsEveryHalfHour()
    ensures |TIME_SLOTS| == 18
    ensures forall i :: 0 <= i < |TIME_SLOTS| ==> IsClockText(TIME_SLOTS[i])
    ensures forall i :: 0 <= i < |TIME_SLOTS| ==> ClockMinutes(TIME_SLOTS[i]) == 9 * 60 + 30 * i
  {
  }

  // ------------------------------------------------------------ conflicts

  /** The conflict query: same establishment, date and time, and not cancelled. */
  function HoldsSlot(establishmentId: string, date: string, time: string): Booking -> bool {
    (b: Booking) => && b.establishmentId == establishmentId && b.bookingDate == date
                    && b.bookingTime == time && b.status != Cancelled
  }

  /** The bookings that make a slot unavailable. */
  function Conflicts(rows: seq<Booking>, establishmentId: string, date: string, time: string)
    : (r: seq<Booking>)
    ensures forall b :: b in r <==>
              && b in rows && b.establishmentId == establishmentId
              && b.bookingDate == date && b.bookingTime == time && b.status != Cancelled
  {
    Select(rows, HoldsSlot(establishmentId, date, time))
  }

  /** A cancelled booking never blocks a slot: adding one changes no conflict. */
  lemma CancelledNeverBlocks(rows: seq<Booking>, b: Booking, establishmentId: string, date: string, time: string)
    requires b.status == Cancelled
    ensures Conflicts(rows + [b], establishmentId, date, time) == Conflicts(rows, establishmentId, date, time)
  {
    SelectAppend(rows, [b], HoldsSlot(establishmentId, date, time));
    assert Select([b], HoldsSlot(establishmentId, date, time)) == [];
  }

  predicate SameSlot(a: Booking, b: Booking) {
    a.establishmentId == b.establishmentId && a.bookingDate == b.bookingDate && a.bookingTime == b.bookingTime
  }

  /** Of any two bookings for the same slot, at least one is cancelled. */
  predicate NoDoubleBooking(rows: seq<Booking>) {
    forall i, j :: 0 <= i < j < |rows| && SameSlot(rows[i], rows[j]) ==>
      rows[i].status == Cancelled || rows[j].status == Cancelled
  }

  // ------------------------------------------------------------ the booking

  /**
   * The row the screen inserts. It is always pending and takes its duration
   * and price from the service. The employee id is kept only when an
   * employee is chosen and their id is non-empty (`selectedEmployee?.id || null`).
   */
  function NewBooking(id: string, userId: string, establishmentId: string, employee: Option<Employee>,
                      service: Service, date: string, time: string): (b: Booking)
    ensures b.status == Pending && b.notes == None
    ensures b.duration == service.duration && b.totalPrice == Some(service.price)
    ensures b.serviceId == service.id && b.userId == userId && b.establishmentId == establishmentId
    ensures b.bookingDate == date && b.bookingTime == time
    ensures b.employeeId.Some? <==> employee.Some? && employee.value.id != ""
    ensures b.employeeId.Some? ==> b.employeeId.value == employee.value.id
  {
    var employeeId := match employee case Some(e) => OrNull(e.id) case None => None;
    Booking(id, userId, establishmentId, employeeId, service.id, date, time,
            service.duration, Pending, None, Some(service.price))
  }

  datatype BookingOutcome =
    | MissingSelection   // "Please select a service, date, and time"
    | MustLogIn
    | SlotTaken          // "This time slot is no longer available"
    | BookingFailed      // the insert returned an error
    | Booked(booking: Booking)

  /** The services query: the active services of one establishment. */
  function IsActiveServiceOf(establishmentId: string): Service -> bool {
    (s: Service) => s.establishmentId == Some(establishmentId) && s.isActive == Some(true)
  }

  class BookingScreen {
    const establishmentId: string
    var services: seq<Service>
    var employees: seq<Employee>
    var selectedService: Option<Service>
    var selectedEmployee: Option<Employee>
    var selectedDate: string
    var selectedTime: string
    var loading: bool
    var showCalendar: bool

    /** Nothing loaded or selected yet; the screen shows its spinner. */
    constructor (establishmentId: string)
      ensures this.establishmentId == establishmentId
      ensures services == [] && employees == []
      ensures selectedService == None && selectedEmployee == None
      ensures selectedDate == "" && selectedTime == ""
      ensures loading && !showCalendar
    {
      this.establishmentId := establishmentId;
      services, employees := [], [];
      selectedService, selectedEmployee := None, None;
      selectedDate, selectedTime := "", "";
      loading, showCalendar := true, false;
    }

    /**
     * The guard of `handleBooking`, and also the condition under which the
     * book button is enabled: a service, a date and a time are chosen.
     */
    predicate CanBook()
      reads this
    {
      selectedService.Some? && selectedDate != "" && selectedTime != ""
    }

    /**
     * `loadData`: the active services and the active staff of the
     * establishment, each replaced only when its own query succeeds.
     */
    method LoadData(serviceTable: Table<Service>, employeeTable: Table<Employee>,
                    servicesFail: bool, employeesFail: bool)
      modifies this
      ensures services == if servicesFail then old(services)
                          else Select(serviceTable.rows, IsActiveServiceOf(establishmentId))
      ensures !servicesFail ==>
                forall s :: s in services <==>
                  s in serviceTable.rows && s.establishmentId == Some(establishmentId) && s.isActive == Some(true)
      ensures employees == if employeesFail then old(employees)
                           else ActiveEmployeesOf(employeeTable.rows, establishmentId)
      ensures !loading
      ensures selectedService == old(selectedService) && selectedEmployee == old(selectedEmployee)
      ensures selectedDate == old(selectedDate) && selectedTime == old(selectedTime)
      ensures showCalendar == old(showCalendar)
    {
      if !servicesFail {
        services := Select(serviceTable.rows, IsActiveServiceOf(establishmentId));
      }
      if !employeesFail {
        employees := ActiveEmployeesOf(employeeTable.rows, establishmentId);
      }
      loading := false;
    }

    method SelectService(service: Service)
      modifies this
      ensures selectedService == Some(service)
      ensures selectedEmployee == old(selectedEmployee)
      ensures selectedDate == old(selectedDate) && selectedTime == old(selectedTime)
      ensures showCalendar == old(showCalendar)
      ensures services == old(services) && employees == old(employees) && loading == old(loading)
    {
      selectedService := Some(service);
    }

    /** "Any available" chooses no employee (`None`); a card chooses that employee. */
    method SelectEmployee(employee: Option<Employee>)
      modifies this
      ensures selectedEmployee == employee
      ensures selectedService == old(selectedService)
      ensures selectedDate == old(selectedDate) && selectedTime == old(selectedTime)
      ensures showCalendar == old(showCalendar)
      ensures services == old(services) && employees == old(employees) && loading == old(loading)
    {
      selectedEmployee := employee;
    }

    method SelectTime(time: string)
      modifies this
      ensures selectedTime == time
      ensures selectedService == old(selectedService) && selectedEmployee == old(selectedEmployee)
      ensures selectedDate == old(selectedDate)
      ensures showCalendar == old(showCalendar)
      ensures services == old(services) && employees == old(employees) && loading == old(loading)
    {
      selectedTime := time;
    }

    method OpenCalendar()
      modifies this
      ensures showCalendar
      ensures selectedDate == old(selectedDate) && selectedTime == old(selectedTime)
      ensures selectedService == old(selectedService) && selectedEmployee == old(selectedEmployee)
      ensures services == old(services) && employees == old(employees) && loading == old(loading)
    {
      showCalendar := true;
    }

    /** Picking a day sets the date, clears the chosen time and closes the calendar. */
    method SelectDate(date: string)
      modifies this
      ensures selectedDate == date && selectedTime == "" && !showCalendar
      ensures !CanBook()
      ensures selectedService == old(selectedService) && selectedEmployee == old(selectedEmployee)
      ensures services == old(services) && employees == old(employees) && loading == old(loading)
    {
      selectedDate := date;
      selectedTime := "";
      showCalendar := false;
    }

    /**
     * `handleBooking`. `newBookingId` is the id the database gives the new
     * row. A conflict query that fails reads as "no conflict", so only with
     * a successful query is the no-double-booking invariant kept.
     */
    method HandleBooking(bookings: Table<Booking>, user: Option<string>, newBookingId: string,
                         queryFails: bool, insertFails: bool)
      returns (outcome: BookingOutcome)
      requires forall b :: b in bookings.rows ==> b.id != newBookingId
      modifies bookings
      ensures !CanBook() ==> outcome == MissingSelection && bookings.rows == old(bookings.rows)
      ensures CanBook() && user.None? ==> outcome == MustLogIn && bookings.rows == old(bookings.rows)
      ensures CanBook() && user.Some? ==>
                var taken := !queryFails && Conflicts(old(bookings.rows), establishmentId, selectedDate, selectedTime) != [];
                var booking := NewBooking(newBookingId, user.value, establishmentId, selectedEmployee,
                                          selectedService.value, selectedDate, selectedTime);
                && (taken ==> outcome == SlotTaken && bookings.rows == old(bookings.rows))
                && (!taken && insertFails ==> outcome == BookingFailed && bookings.rows == old(bookings.rows))
                && (!taken && !insertFails ==>
                      outcome == Booked(booking) && bookings.rows == old(bookings.rows) + [booking])
      ensures !queryFails && NoDoubleBooking(old(bookings.rows)) ==> NoDoubleBooking(bookings.rows)
      ensures outcome.Booked? ==> outcome.booking.status == Pending && outcome.booking in bookings.rows
    {
      if !CanBook() {
        return MissingSelection;
      }
      if user.None? {
        return MustLogIn;
      }
      var service := selectedService.value;
      var existing := if queryFails then [] else Conflicts(bookings.rows, establishmentId, selectedDate, selectedTime);
      if |existing| > 0 {
        return SlotTaken;
      }
      var booking := NewBooking(newBookingId, user.value, establishmentId, selectedEmployee,
                                service, selectedDate, selectedTime);
      ghost var before := bookings.rows;
      bookings.Insert(booking, insertFails);
      if insertFails {
        return BookingFailed;
      }
      if !queryFails && NoDoubleBooking(before) {
        forall i, j | 0 <= i < j < |bookings.rows| && SameSlot(bookings.rows[i], bookings.rows[j])
          ensures bookings.rows[i].status == Cancelled || bookings.rows[j].status == Cancelled
        {
          if j == |before| {
            // the new booking's slot had no booking that was not cancelled
            assert bookings.rows[i] == before[i];
            assert before[i] !in existing;
          } else {
            assert bookings.rows[i] == before[i] && bookings.rows[j] == before[j];
          }
        }
      }
      assert bookings.rows[|before|] == booking;
      outcome := Booked(booking);
    }
  }
}
