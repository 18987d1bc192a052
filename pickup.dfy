/** The pick-up-time rule applied when an order is created and when it is
    submitted (app.py, create_order and submit_order). A timestamp has the
    fields of a Python `datetime` that the rule touches: a calendar day
    number, the hour, minute and second of that day, and a microsecond. */
module PickUp {

  const HoursPerDay := 24

  datatype Timestamp = Timestamp(day: int, hour: int, minute: int, second: int, micro: int)

  /** A well-formed timestamp: every field of the time of day is in range. */
  predicate ValidTime(t: Timestamp) {
    && 0 <= t.hour < HoursPerDay && 0 <= t.minute < 60 && 0 <= t.second < 60
    && 0 <= t.micro < 1000000
  }

  /** `t + timedelta(days = n)`. */
  function AddDays(t: Timestamp, n: int): Timestamp {
    t.(day := t.day + n)
  }

  /** `t + timedelta(hours = n)`, carrying into the next days. */
  function AddHours(t: Timestamp, n: nat): Timestamp {
    var h := t.hour + n;
    t.(day := t.day + h / HoursPerDay, hour := h % HoursPerDay)
  }

  /** `t.replace(hour = h, minute = m, second = s)`: the microseconds are kept. */
  function ReplaceTime(t: Timestamp, h: int, m: int, s: int): Timestamp {
    t.(hour := h, minute := m, second := s)
  }

  /** `a` is strictly earlier than `b`. */
  predicate Before(a: Timestamp, b: Timestamp) {
    || a.day < b.day
    || (a.day == b.day && a.hour < b.hour)
    || (a.day == b.day && a.hour == b.hour && a.minute < b.minute)
    || (a.day == b.day && a.hour == b.hour && a.minute == b.minute && a.second < b.second)
    || (a.day == b.day && a.hour == b.hour && a.minute == b.minute && a.second == b.second && a.micro < b.micro)
  }

  /** The pick-up time for an order stamped at `t`: after 19 o'clock, the next
      day at 18:59:59; otherwise two hours later, capped to 18:59:59 of that day
      when the new hour is past 19. */
  function PickUpTime(t: Timestamp): (p: Timestamp)
    requires ValidTime(t)
    ensures ValidTime(p)
    ensures p.hour <= 19
    ensures p.micro == t.micro
    ensures p.day == if t.hour > 19 then t.day + 1 else t.day
  {
    if t.hour > 19 then
      ReplaceTime(AddDays(t, 1), 18, 59, 59)
    else
      var candidate := AddHours(t, 2);
      if candidate.hour > 19 then ReplaceTime(candidate, 18, 59, 59) else candidate
  }

  /** The rule by windows of the time of day: from 20:00 on, the next day at
      18:59:59; from 18:00 to 19:59:59, the same day at 18:59:59; before 18:00,
      exactly two hours later. */
  lemma PickUpWindows(t: Timestamp)
    requires ValidTime(t)
    ensures t.hour >= 20 ==> PickUpTime(t) == Timestamp(t.day + 1, 18, 59, 59, t.micro)
    ensures 18 <= t.hour < 20 ==> PickUpTime(t) == Timestamp(t.day, 18, 59, 59, t.micro)
    ensures t.hour < 18 ==> PickUpTime(t) == t.(hour := t.hour + 2)
  {
    if t.hour < 20 {
      assert AddHours(t, 2) == t.(hour := t.hour + 2);
    }
  }

  /** The cap at 18:59:59 only applies when the new hour is strictly past 19:
      a result in 19:00-19:59 stands. */
  lemma UncappedThroughHour19(t: Timestamp)
    requires ValidTime(t) && t.hour == 17
    ensures PickUpTime(t).hour == 19
    ensures PickUpTime(t) == t.(hour := 19)
  {
    PickUpWindows(t);
  }

  /** The pick-up time is earlier than the order's own time exactly when the
      order is stamped during hour 19: two hours later is past 19, and the cap
      moves it back to 18:59:59 of the same day. */
  lemma PickUpBeforeOrderIffHour19(t: Timestamp)
    requires ValidTime(t)
    ensures Before(PickUpTime(t), t) <==> t.hour == 19
  {
    PickUpWindows(t);
  }

  /** Worked values: 17:30 gives 19:30, 18:00 gives 18:59:59, 20:05 gives the
      next day at 18:59:59, and 19:30 gives 18:59:59 of the same day. */
  lemma PickUpExamples(day: int)
    ensures PickUpTime(Timestamp(day, 17, 30, 0, 0)) == Timestamp(day, 19, 30, 0, 0)
    ensures PickUpTime(Timestamp(day, 18, 0, 0, 0)) == Timestamp(day, 18, 59, 59, 0)
    ensures PickUpTime(Timestamp(day, 20, 5, 0, 0)) == Timestamp(day + 1, 18, 59, 59, 0)
    ensures PickUpTime(Timestamp(day, 19, 30, 0, 0)) == Timestamp(day, 18, 59, 59, 0)
  {
    PickUpWindows(Timestamp(day, 17, 30, 0, 0));
    PickUpWindows(Timestamp(day, 18, 0, 0, 0));
    PickUpWindows(Timestamp(day, 20, 5, 0, 0));
    PickUpWindows(Timestamp(day, 19, 30, 0, 0));
  }
}
