/** Slot arithmetic: the blocked execution windows of internal/domain/window.go and the planner of
    internal/solve/solve.go. Instants are nanoseconds; India keeps UTC+05:30 all year. */
module Slots {
  import opened Domain
  import opened Classification

  const IST_OFFSET: Time := 5 * HOUR + 30 * MINUTE

  /** Days since 1970-01-01 on an Indian calendar. */
  function IstDay(t: Time): int {
    (t + IST_OFFSET) / DAY
  }

  /** Nanoseconds since Indian midnight. */
  function IstClock(t: Time): (c: Time)
    ensures 0 <= c < DAY
  {
    (t + IST_OFFSET) % DAY
  }

  function MinuteOfDay(t: Time): int {
    IstClock(t) / MINUTE
  }

  /** time.Date in the Indian zone: a day and a clock time. */
  function IstDate(day: int, hour: int, minute: int): Time {
    day * DAY + hour * HOUR + minute * MINUTE - IST_OFFSET
  }

  datatype Window = Window(fromMinute: int, toMinute: int)

  const BLOCKED_WINDOWS: seq<Window> := [Window(10 * 60, 13 * 60), Window(17 * 60, 21 * 60 + 30)]

  function FindBlockedWindow(m: int): Option<Window> {
    if BLOCKED_WINDOWS[0].fromMinute <= m <= BLOCKED_WINDOWS[0].toMinute then Some(BLOCKED_WINDOWS[0])
    else if BLOCKED_WINDOWS[1].fromMinute <= m <= BLOCKED_WINDOWS[1].toMinute then Some(BLOCKED_WINDOWS[1])
    else None
  }

  predicate Blocked(t: Time) {
    FindBlockedWindow(MinuteOfDay(t)).Some?
  }

  function ShiftPastBlockedWindow(t: Time): Time {
    match FindBlockedWindow(MinuteOfDay(t))
    case None => t
    case Some(w) => var m := w.toMinute + 5; IstDate(IstDay(t), m / 60, m % 60)
  }

  // ---------------------------------------------------------------------------------------

  lemma DateReadsBack(day: int, clock: Time)
    requires 0 <= clock < DAY
    ensures IstDay(day * DAY + clock - IST_OFFSET) == day
    ensures IstClock(day * DAY + clock - IST_OFFSET) == clock
  {
  }

  lemma SplitsIntoDayAndClock(t: Time)
    ensures t == IstDay(t) * DAY + IstClock(t) - IST_OFFSET
  {
  }

  lemma ClockOfMinutes(m: int)
    requires 0 <= m < 24 * 60
    ensures (m / 60) * HOUR + (m % 60) * MINUTE == m * MINUTE
    ensures m * MINUTE / MINUTE == m && 0 <= m * MINUTE < DAY
  {
  }

  /** A shift lands outside every window, is never earlier, takes at most 4h35m, and
      stays on the same Indian day; outside the windows nothing moves. */
  lemma ShiftEscapesTheWindow(t: Time)
    ensures var s := ShiftPastBlockedWindow(t);
            && FreeAt(s) && !Blocked(s)
            && t <= s <= t + 4 * HOUR + 35 * MINUTE
            && IstDay(s) == IstDay(t)
            && (s == t <==> FreeAt(t)) && (FreeAt(t) <==> !Blocked(t))
  {
    WindowsAreTheClocks(t);
    WindowsAreTheClocks(ShiftPastBlockedWindow(t));
    if Blocked(t) {
      var w := FindBlockedWindow(MinuteOfDay(t)).value;
      var m := w.toMinute + 5;
      ClockOfMinutes(m);
      SplitsIntoDayAndClock(t);
      DateReadsBack(IstDay(t), m * MINUTE);
      assert ShiftPastBlockedWindow(t) == IstDay(t) * DAY + m * MINUTE - IST_OFFSET;
      assert MinuteOfDay(t) * MINUTE <= IstClock(t) < (MinuteOfDay(t) + 1) * MINUTE;
    }
  }

  lemma ShiftIsIdempotent(t: Time)
    ensures ShiftPastBlockedWindow(ShiftPastBlockedWindow(t)) == ShiftPastBlockedWindow(t)
  {
    ShiftEscapesTheWindow(t);
  }

  /** The shift is not monotone: noon moves past 13:02, which stays where it is. */
  lemma ShiftIsNotMonotone(day: int)
    ensures var noon, later := IstDate(day, 12, 0), IstDate(day, 13, 2);
            noon < later && ShiftPastBlockedWindow(noon) > ShiftPastBlockedWindow(later)
  {
    DateReadsBack(day, 12 * HOUR);
    DateReadsBack(day, 13 * HOUR + 2 * MINUTE);
  }

  /** The windows by the Indian wall clock: free but from 10:00 to the end of the minute 13:00 and
      from 17:00 to the end of the minute 21:30. */
  predicate FreeAt(t: Time) {
    var clock := (t + 5 * HOUR + 30 * MINUTE) % (24 * HOUR);
    !(10 * HOUR <= clock < 13 * HOUR + MINUTE) && !(17 * HOUR <= clock < 21 * HOUR + 31 * MINUTE)
  }

  /** Five minutes past the end of the window an instant falls in, by the Indian wall clock. */
  function AfterWindows(t: Time): Time {
    var clock := (t + 5 * HOUR + 30 * MINUTE) % (24 * HOUR);
    if 10 * HOUR <= clock < 13 * HOUR + MINUTE then t - clock + 13 * HOUR + 5 * MINUTE
    else if 17 * HOUR <= clock < 21 * HOUR + 31 * MINUTE then t - clock + 21 * HOUR + 35 * MINUTE
    else t
  }

  /** Every Indian day and clock time: which are blocked, and where they are shifted. */
  lemma WindowsByTheClock(day: int, clock: Time)
    requires 0 <= clock < 24 * HOUR
    ensures var t := day * (24 * HOUR) + clock - (5 * HOUR + 30 * MINUTE);
            var shifted := if 10 * HOUR <= clock < 13 * HOUR + MINUTE then 13 * HOUR + 5 * MINUTE
                           else if 17 * HOUR <= clock < 21 * HOUR + 31 * MINUTE then 21 * HOUR + 35 * MINUTE
                           else clock;
            && IstDay(t) == day && IstClock(t) == clock
            && (Blocked(t) <==> 10 * HOUR <= clock < 13 * HOUR + MINUTE || 17 * HOUR <= clock < 21 * HOUR + 31 * MINUTE)
            && ShiftPastBlockedWindow(t) == day * (24 * HOUR) + shifted - (5 * HOUR + 30 * MINUTE)
  {
    DateReadsBack(day, clock);
    var t := day * DAY + clock - IST_OFFSET;
    var m := MinuteOfDay(t);
    assert m * MINUTE <= clock < (m + 1) * MINUTE;
    ClockOfMinutes(13 * 60 + 5);
    ClockOfMinutes(21 * 60 + 35);
  }

  /** The window table and its search say what the wall clock says. */
  lemma WindowsAreTheClocks(t: Time)
    ensures Blocked(t) <==> !FreeAt(t)
    ensures ShiftPastBlockedWindow(t) == AfterWindows(t)
  {
    SplitsIntoDayAndClock(t);
    WindowsByTheClock(IstDay(t), IstClock(t));
  }

  // ---------------------------------------------------------------------------------------
  // The planner

  const NOTICE_LEAD_BUFFER: Time := 15 * MINUTE
  const OFFSETS: seq<Time> := [DAY, 3 * DAY, 7 * DAY]

  /** applyPreferredHour: the same Indian day at the customer's hour. */
  function ApplyPreferredHour(t: Time, preferredHour: Option<int>): Time {
    match preferredHour
    case None => t
    case Some(h) => IstDate(IstDay(t), h, 0)
  }

  /** The earliest firing time that leaves room for the notice. */
  function NoticeFloor(now: Time): Time {
    now + NOTICE_LEAD + NOTICE_LEAD_BUFFER
  }

  function EnsureNoticeLead(candidate: Time, now: Time): Time {
    if candidate >= NoticeFloor(now) then candidate else NoticeFloor(now)
  }

  function PlanSlot(slot: Time, preferredHour: Option<int>, now: Time): Time {
    ShiftPastBlockedWindow(EnsureNoticeLead(ApplyPreferredHour(slot, preferredHour), now))
  }

  function First(dueDate: Time, preferredHour: Option<int>, now: Time): Time {
    PlanSlot(dueDate, preferredHour, now)
  }

  function Next(dueDate: Time, attemptsUsed: int, class_: FailureClass, preferredHour: Option<int>,
                now: Time): Option<Time> {
    if Final(class_) then None
    else
      var slotIndex := attemptsUsed - 1;
      if slotIndex < 0 || slotIndex >= |OFFSETS| then None
      else Some(PlanSlot(dueDate + OFFSETS[slotIndex], preferredHour, now))
  }

  /** AfterConfirmation counts from the customer's answer, not from now. */
  function AfterConfirmation(respondedAt: Time): Time {
    ShiftPastBlockedWindow(respondedAt + NOTICE_LEAD + NOTICE_LEAD_BUFFER)
  }

  /** The deadline of a notice is 24 hours before the slot, to the second. */
  predicate DeadlineFits(deliverBy: Time, at: Time) {
    at - NOTICE_LEAD - SECOND < deliverBy <= at - NOTICE_LEAD
  }

  function Max(a: int, b: int): int { if a < b then b else a }

  /** A planned slot is free by the wall clock, leaves 24h15m for the notice, is never before the slot
      asked for, and lies at most 4h35m after the later of that slot and the notice floor. */
  lemma PlannedSlot(slot: Time, preferredHour: Option<int>, now: Time)
    ensures var wanted := ApplyPreferredHour(slot, preferredHour);
            var floor := now + 24 * HOUR + 15 * MINUTE;
            var planned := PlanSlot(slot, preferredHour, now);
            && FreeAt(planned) && !Blocked(planned)
            && planned >= floor
            && Max(wanted, floor) <= planned <= Max(wanted, floor) + 4 * HOUR + 35 * MINUTE
            && (wanted >= floor ==> IstDay(planned) == IstDay(wanted))
  {
    ShiftEscapesTheWindow(EnsureNoticeLead(ApplyPreferredHour(slot, preferredHour), now));
    WindowsAreTheClocks(PlanSlot(slot, preferredHour, now));
  }

  /** What the mandate asks for: the due date or one, three or seven days later, at the preferred
      hour of that Indian day. */
  function Wanted(dueDate: Time, days: int, preferredHour: Option<int>): Time {
    var t := dueDate + days * (24 * HOUR);
    match preferredHour
    case None => t
    case Some(h) => (t + 5 * HOUR + 30 * MINUTE) / (24 * HOUR) * (24 * HOUR) + h * HOUR - (5 * HOUR + 30 * MINUTE)
  }

  /** What the scheduler owes the customer: that slot, but not before the notice fits, and past the
      windows. */
  function MandatedSlot(dueDate: Time, days: int, preferredHour: Option<int>, now: Time): Time {
    AfterWindows(Max(Wanted(dueDate, days, preferredHour), now + 24 * HOUR + 15 * MINUTE))
  }

  /** Days after the due date on which an attempt is mandated. */
  function MandatedDays(attemptsUsed: int): Option<int> {
    if attemptsUsed == 0 then Some(0)
    else if attemptsUsed == 1 then Some(1)
    else if attemptsUsed == 2 then Some(3)
    else if attemptsUsed == 3 then Some(7)
    else None
  }

  lemma WantedIsPreferred(dueDate: Time, days: int, preferredHour: Option<int>)
    ensures ApplyPreferredHour(dueDate + days * DAY, preferredHour) == Wanted(dueDate, days, preferredHour)
  {
  }

  /** First, Next and AfterConfirmation plan exactly the mandated slots: Next for every class but the
      two final ones, with one to three attempts used. */
  lemma PlansAreMandated(dueDate: Time, attemptsUsed: int, class_: FailureClass, preferredHour: Option<int>, now: Time)
    ensures First(dueDate, preferredHour, now) == MandatedSlot(dueDate, 0, preferredHour, now)
    ensures AfterConfirmation(now) == AfterWindows(now + 24 * HOUR + 15 * MINUTE)
    ensures Next(dueDate, attemptsUsed, class_, preferredHour, now)
         == if class_ in {RetryNow, RetryLater} && 1 <= attemptsUsed <= 3
            then Some(MandatedSlot(dueDate, MandatedDays(attemptsUsed).value, preferredHour, now)) else None
  {
    PlanIsMandated(dueDate, 0, preferredHour, now);
    if 1 <= attemptsUsed <= 3 {
      PlanIsMandated(dueDate, MandatedDays(attemptsUsed).value, preferredHour, now);
    }
    WindowsAreTheClocks(NoticeFloor(now));
  }

  lemma PlanIsMandated(dueDate: Time, days: int, preferredHour: Option<int>, now: Time)
    ensures PlanSlot(dueDate + days * DAY, preferredHour, now) == MandatedSlot(dueDate, days, preferredHour, now)
  {
    WantedIsPreferred(dueDate, days, preferredHour);
    WindowsAreTheClocks(EnsureNoticeLead(ApplyPreferredHour(dueDate + days * DAY, preferredHour), now));
  }

  /** The mandated slot meets every rule: free by the wall clock, room for the notice, never early,
      at most 4h35m late, and on the wanted Indian day when the notice fits. */
  lemma MandatedSlotMeetsEveryRule(dueDate: Time, days: int, preferredHour: Option<int>, now: Time)
    ensures var wanted, floor := Wanted(dueDate, days, preferredHour), now + 24 * HOUR + 15 * MINUTE;
            var at := MandatedSlot(dueDate, days, preferredHour, now);
            && FreeAt(at) && !Blocked(at) && at >= floor
            && Max(wanted, floor) <= at <= Max(wanted, floor) + 4 * HOUR + 35 * MINUTE
            && (wanted >= floor ==> IstDay(at) == IstDay(wanted))
  {
    WantedIsPreferred(dueDate, days, preferredHour);
    PlanIsMandated(dueDate, days, preferredHour, now);
    PlannedSlot(dueDate + days * DAY, preferredHour, now);
  }

  /** First and Next meet every timing rule, and Next yields a slot exactly for a class that may
      be retried with one to three attempts used. */
  lemma PlansMeetEveryRule(dueDate: Time, attemptsUsed: int, class_: FailureClass, preferredHour: Option<int>,
                           now: Time)
    ensures var first, floor := First(dueDate, preferredHour, now), now + 24 * HOUR + 15 * MINUTE;
            var wanted := Wanted(dueDate, 0, preferredHour);
            && FreeAt(first) && !Blocked(first) && first >= floor
            && Max(wanted, floor) <= first <= Max(wanted, floor) + 4 * HOUR + 35 * MINUTE
    ensures var next, floor := Next(dueDate, attemptsUsed, class_, preferredHour, now), now + 24 * HOUR + 15 * MINUTE;
            && (next.Some? <==> !Final(class_) && 1 <= attemptsUsed <= 3)
            && (next.Some? ==>
                  var wanted := Wanted(dueDate, MandatedDays(attemptsUsed).value, preferredHour);
                  && FreeAt(next.value) && !Blocked(next.value) && next.value >= floor
                  && Max(wanted, floor) <= next.value <= Max(wanted, floor) + 4 * HOUR + 35 * MINUTE)
  {
    hide MandatedSlot, Wanted, First, Next, FreeAt, Blocked;
    PlansAreMandated(dueDate, attemptsUsed, class_, preferredHour, now);
    MandatedSlotMeetsEveryRule(dueDate, 0, preferredHour, now);
    if 1 <= attemptsUsed <= 3 {
      MandatedSlotMeetsEveryRule(dueDate, MandatedDays(attemptsUsed).value, preferredHour, now);
    }
  }

  /** How far the window shift moves an instant: to five minutes past the end of its window. */
  function Detour(t: Time): Time {
    match FindBlockedWindow(MinuteOfDay(t))
    case None => 0
    case Some(w) => (w.toMinute + 5) * MINUTE - IstClock(t)
  }

  lemma ShiftTakesTheDetour(t: Time)
    ensures ShiftPastBlockedWindow(t) == t + Detour(t) && 0 <= Detour(t) <= 4 * HOUR + 35 * MINUTE
  {
    ShiftEscapesTheWindow(t);
    if Blocked(t) {
      ClockOfMinutes(FindBlockedWindow(MinuteOfDay(t)).value.toMinute + 5);
      SplitsIntoDayAndClock(t);
    }
  }

  /** A confirmation plan is unblocked and leaves a full notice lead after the answer. Measured from
      now it leaves one exactly while the answer is younger than the buffer and the detour of its
      slot; so never once the answer is older than the buffer and the longest detour. */
  lemma ConfirmationCountsFromTheAnswer(respondedAt: Time, now: Time)
    ensures FreeAt(AfterConfirmation(respondedAt)) && !Blocked(AfterConfirmation(respondedAt))
    ensures AfterConfirmation(respondedAt) - NOTICE_LEAD >= respondedAt + NOTICE_LEAD_BUFFER
    ensures AfterConfirmation(respondedAt) - NOTICE_LEAD > now
            <==> now - respondedAt < NOTICE_LEAD_BUFFER + Detour(NoticeFloor(respondedAt))
    ensures now - respondedAt >= NOTICE_LEAD_BUFFER + 4 * HOUR + 35 * MINUTE ==>
              AfterConfirmation(respondedAt) - NOTICE_LEAD <= now
  {
    ShiftEscapesTheWindow(NoticeFloor(respondedAt));
    WindowsAreTheClocks(AfterConfirmation(respondedAt));
    ShiftTakesTheDetour(NoticeFloor(respondedAt));
  }
}
