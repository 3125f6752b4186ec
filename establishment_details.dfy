/**
 * The detail screen of one establishment: its staff list, the
 * "message an employee" flow that finds or creates the conversation, and the
 * read-only sections (the first slots and the opening hours).
 */
module EstablishmentDetails {

  import opened Wrappers
  import opened Types
  import opened Backend

  // ------------------------------------------------------------ conversations

  /** The rows the existing-chat lookup matches: one user, one establishment, one employee. */
  function IsConversation(userId: string, establishmentId: string, employeeId: string): Chat -> bool {
    (c: Chat) => c.userId == userId && c.establishmentId == establishmentId && c.employeeId == employeeId
  }

  predicate SameConversation(a: Chat, b: Chat) {
    a.userId == b.userId && a.establishmentId == b.establishmentId && a.employeeId == b.employeeId
  }

  /** No two chats share a user, establishment and employee. */
  predicate UniqueConversations(rows: seq<Chat>) {
    forall i, j :: 0 <= i < j < |rows| ==> !SameConversation(rows[i], rows[j])
  }

  /** The chat `.single()` finds: present only when exactly one row matches. */
  function ExistingChat(rows: seq<Chat>, userId: string, establishmentId: string, employeeId: string)
    : Option<Chat>
  {
    Single(Select(rows, IsConversation(userId, establishmentId, employeeId)))
  }

  /** With unique conversations, at most one row matches a lookup. */
  lemma {:induction false} UniqueSelectsAtMostOne(rows: seq<Chat>, u: string, est: string, emp: string)
    requires UniqueConversations(rows)
    ensures |Select(rows, IsConversation(u, est, emp))| <= 1
    decreases |rows|
  {
    if rows != [] {
      var init, last := rows[..|rows| - 1], rows[|rows| - 1];
      assert UniqueConversations(init) by {
        forall i, j | 0 <= i < j < |init| ensures !SameConversation(init[i], init[j]) {
          assert init[i] == rows[i] && init[j] == rows[j];
        }
      }
      UniqueSelectsAtMostOne(init, u, est, emp);
      var earlier := Select(init, IsConversation(u, est, emp));
      assert Select(rows, IsConversation(u, est, emp))
             == earlier + (if IsConversation(u, est, emp)(last) then [last] else []);
      if IsConversation(u, est, emp)(last) {
        // `last` is the only row of its conversation, so nothing before it matches
        forall c | c in init ensures !IsConversation(u, est, emp)(c) {
          var i :| 0 <= i < |init| && init[i] == c;
          assert rows[i] == c && !SameConversation(rows[i], rows[|rows| - 1]);
        }
        SelectNone(init, IsConversation(u, est, emp));
      }
    }
  }

  /** Under unique conversations the lookup finds a chat exactly when one exists. */
  lemma ExistingChatFound(rows: seq<Chat>, u: string, est: string, emp: string)
    requires UniqueConversations(rows)
    ensures ExistingChat(rows, u, est, emp).Some? <==> exists c :: c in rows && IsConversation(u, est, emp)(c)
    ensures ExistingChat(rows, u, est, emp).Some? ==>
              var c := ExistingChat(rows, u, est, emp).value;
              c in rows && c.userId == u && c.establishmentId == est && c.employeeId == emp
  {
    UniqueSelectsAtMostOne(rows, u, est, emp);
    var found := Select(rows, IsConversation(u, est, emp));
    if exists c :: c in rows && IsConversation(u, est, emp)(c) {
      var c :| c in rows && IsConversation(u, est, emp)(c);
      assert c in found;
    }
    assert forall k :: 0 <= k < |found| ==> found[k] in found;
  }

  datatype ChatOutcome =
    | MustLogIn            // no signed-in user
    | ChatCreationFailed   // the insert returned an error
    | OpenChat(chatId: string)

  // ------------------------------------------------------------ read-only sections

  /** The seven lower-case day keys of the opening hours. */
  predicate IsDayKey(day: string) {
    || day == "monday" || day == "tuesday" || day == "wednesday" || day == "thursday"
    || day == "friday" || day == "saturday" || day == "sunday"
  }

  function UpperCase(c: char): char {
    if 'a' <= c <= 'z' then (c as int - 32) as char else c
  }

  /** `getDayName`: the seven lower-case day keys are capitalised; any other key is shown as it is. */
  function DayName(day: string): (name: string)
    ensures IsDayKey(day) ==> |name| == |day| && name[0] == UpperCase(day[0])
    ensures IsDayKey(day) ==> forall i :: 1 <= i < |day| ==> name[i] == day[i]
    ensures !IsDayKey(day) ==> name == day
  {
    if day == "monday" then "Monday"
    else if day == "tuesday" then "Tuesday"
    else if day == "wednesday" then "Wednesday"
    else if day == "thursday" then "Thursday"
    else if day == "friday" then "Friday"
    else if day == "saturday" then "Saturday"
    else if day == "sunday" then "Sunday"
    else day
  }

  /** One row of the opening-hours section. */
  datatype HoursRow = HoursRow(dayLabel: string, timeText: string, closedStyle: bool)

  /** The text of a day's hours: the two times joined by a dash, or "Closed". */
  function HoursText(hours: Option<Hours>): (text: string)
    ensures hours.None? <==> text == "Closed"
    ensures hours.Some? ==> text == hours.value.open + " - " + hours.value.close
  {
    match hours
    case None => "Closed"
    case Some(h) =>
      var text := h.open + " - " + h.close;
      assert text[|h.open| + 1] == '-';
      assert forall i :: 0 <= i < 6 ==> "Closed"[i] != '-';
      text
  }

  /** The row for one opening-hours entry: a closed day is styled as closed and reads "Closed". */
  function HoursRowFor(day: string, hours: Option<Hours>): (row: HoursRow)
    ensures row.closedStyle <==> hours.None?
    ensures row.closedStyle <==> row.timeText == "Closed"
    ensures row.dayLabel == DayName(day)
  {
    HoursRow(DayName(day), HoursText(hours), hours.None?)
  }

  /** `availableSlots.slice(0, 8)`: at most the first eight slots, in order. */
  function DisplayedSlots(slots: seq<TimeSlot>): (shown: seq<TimeSlot>)
    ensures |shown| == if |slots| < 8 then |slots| else 8
    ensures forall i :: 0 <= i < |shown| ==> shown[i] == slots[i]
  {
    if |slots| <= 8 then slots else slots[..8]
  }

  // ------------------------------------------------------------ the screen

  class DetailsScreen {
    const establishment: Establishment
    var employees: seq<Employee>
    var showEmployeeModal: bool
    var loadingEmployees: bool

    /** The screen opens with no staff loaded and the employee picker closed. */
    constructor (establishment: Establishment)
      ensures this.establishment == establishment
      ensures employees == [] && !showEmployeeModal && !loadingEmployees
    {
      this.establishment := establishment;
      employees := [];
      showEmployeeModal := false;
      loadingEmployees := false;
    }

    /**
     * `loadEmployees`: the active staff of this establishment; an error keeps
     * the list that was shown. The spinner is off afterwards either way.
     */
    method LoadEmployees(table: Table<Employee>, queryFails: bool)
      modifies this
      ensures queryFails ==> employees == old(employees)
      ensures !queryFails ==> employees == ActiveEmployeesOf(table.rows, establishment.id)
      ensures !queryFails ==>
                forall e :: e in employees <==>
                  e in table.rows && e.establishmentId == establishment.id && e.isActive
      ensures !loadingEmployees && showEmployeeModal == old(showEmployeeModal)
    {
      loadingEmployees := true;
      if !queryFails {
        employees := ActiveEmployeesOf(table.rows, establishment.id);
      }
      loadingEmployees := false;
    }

    /** `handleMessagePress`: opens the employee picker, unless there is nobody to message. */
    method HandleMessagePress()
      modifies this
      ensures showEmployeeModal == (old(showEmployeeModal) || |employees| > 0)
      ensures employees == old(employees) && loadingEmployees == old(loadingEmployees)
    {
      if |employees| == 0 {
        return;
      }
      showEmployeeModal := true;
    }

    /**
     * `handleEmployeeSelect`: closes the picker; with a signed-in user, opens
     * the existing chat with that employee, or inserts a new one and opens it.
     * `newChatId` is the id the database gives the new row. A failed lookup
     * reads as "no chat yet", so a duplicate conversation can then be
     * created; with successful lookups conversations stay unique.
     */
    method HandleEmployeeSelect(employee: Employee, chats: Table<Chat>, user: Option<string>,
                                newChatId: string, lookupFails: bool, insertFails: bool)
      returns (outcome: ChatOutcome)
      requires forall c :: c in chats.rows ==> c.id != newChatId
      modifies this, chats
      ensures !showEmployeeModal
      ensures employees == old(employees) && loadingEmployees == old(loadingEmployees)
      ensures user.None? ==> outcome == MustLogIn && chats.rows == old(chats.rows)
      ensures user.Some? ==>
                var existing := if lookupFails then None
                                else ExistingChat(old(chats.rows), user.value, establishment.id, employee.id);
                && (existing.Some? ==> outcome == OpenChat(existing.value.id) && chats.rows == old(chats.rows))
                && (existing.None? && insertFails ==>
                      outcome == ChatCreationFailed && chats.rows == old(chats.rows))
                && (existing.None? && !insertFails ==>
                      && outcome == OpenChat(newChatId)
                      && chats.rows == old(chats.rows) + [Chat(newChatId, user.value, establishment.id, employee.id)])
      ensures !lookupFails && UniqueConversations(old(chats.rows)) ==> UniqueConversations(chats.rows)
      ensures outcome.OpenChat? ==> exists c :: c in chats.rows && c.id == outcome.chatId
    {
      showEmployeeModal := false;
      if user.None? {
        return MustLogIn;
      }
      var userId := user.value;
      var existing := if lookupFails then None
                      else ExistingChat(chats.rows, userId, establishment.id, employee.id);
      if existing.Some? {
        assert existing.value in Select(chats.rows, IsConversation(userId, establishment.id, employee.id));
        return OpenChat(existing.value.id);
      }
      var newChat := Chat(newChatId, userId, establishment.id, employee.id);
      ghost var before := chats.rows;
      chats.Insert(newChat, insertFails);
      if insertFails {
        return ChatCreationFailed;
      }
      assert newChat == chats.rows[|chats.rows| - 1];
      if !lookupFails && UniqueConversations(before) {
        ExistingChatFound(before, userId, establishment.id, employee.id);
        forall i, j | 0 <= i < j < |chats.rows| ensures !SameConversation(chats.rows[i], chats.rows[j]) {
          if j == |before| {
            assert chats.rows[i] == before[i];
            assert !IsConversation(userId, establishment.id, employee.id)(before[i]);
          } else {
            assert chats.rows[i] == before[i] && chats.rows[j] == before[j];
          }
        }
      }
      outcome := OpenChat(newChatId);
    }
  }
}
