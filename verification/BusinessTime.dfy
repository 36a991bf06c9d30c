/** Deadlines counted in business minutes: 09:00-18:00 local time, Monday to Saturday. */
module BusinessTime {

  // Clock readings within a day, in microseconds.
  const MINUTE: int := 60_000_000
  const OPEN: int := 32_400_000_000
  const CLOSE: int := 64_800_000_000
  const WORKDAY: int := 32_400_000_000

  /** A local date and time; day 0 is a Monday. */
  datatype Moment = Moment(day: int, tick: int)
  type Instant = m: Moment | 0 <= m.tick < 86_400_000_000 witness Moment(0, 0)

  function Weekday(m: Moment): int {
    m.day % 7
  }

  predicate InHours(m: Instant) {
    Weekday(m) < 6 && OPEN <= m.tick < CLOSE
  }

  predicate AtOrBefore(a: Moment, b: Moment) {
    a.day < b.day || (a.day == b.day && a.tick <= b.tick)
  }

  predicate StrictlyBefore(a: Moment, b: Moment) {
    AtOrBefore(a, b) && a != b
  }

  function NextWorkday(day: int): int {
    if (day + 1) % 7 == 6 then day + 2 else day + 1
  }

  function NextOpening(m: Moment): Instant {
    Moment(NextWorkday(m.day), OPEN)
  }

  /** The first moment at or after `m` inside working hours. */
  function Align(m: Instant): Instant {
    if InHours(m) then m
    else if Weekday(m) < 6 && m.tick < OPEN then Moment(m.day, OPEN)
    else NextOpening(m)
  }

  function MinutesLeft(m: Moment): int {
    (CLOSE - m.tick) / 60_000_000
  }

  function AddOpen(current: Instant, remaining: nat): Instant
    requires InHours(current)
    decreases remaining, MinutesLeft(current) == 0
  {
    if remaining == 0 then current
    else if remaining <= MinutesLeft(current) then Moment(current.day, current.tick + remaining * MINUTE)
    else AddOpen(NextOpening(current), remaining - MinutesLeft(current))
  }

  function AddMinutes(start: Instant, minutes: nat): Instant {
    AddOpen(Align(start), minutes)
  }

  /** The inner loop: on to the next day that is no Sunday. */
  method OpeningAfter(start: Instant) returns (current: Instant)
    requires Weekday(start) < 6
    ensures current == NextOpening(start)
  {
    ghost var opening := NextOpening(start);
    current := Moment(start.day + 1, OPEN);
    while Weekday(current) >= 6
      invariant current.tick == OPEN && current.day <= opening.day
      invariant current == opening || (Weekday(current) == 6 && current.day + 1 == opening.day)
      decreases opening.day - current.day
    {
      current := Moment(current.day + 1, current.tick);
    }
  }

  method AddBusinessMinutes(start: Instant, minutes: nat) returns (current: Instant)
    ensures current == AddMinutes(start, minutes)
  {
    var remaining := minutes;
    current := start;
    while current.tick < OPEN || current.tick >= CLOSE || Weekday(current) >= 6
      invariant Align(current) == Align(start)
      decreases Align(start).day - current.day, Align(start).tick != current.tick
    {
      if Weekday(current) >= 6 || current.tick >= CLOSE {
        current := Moment(current.day + 1, OPEN);
      } else {
        current := Moment(current.day, OPEN);
      }
    }
    while remaining > 0
      invariant Weekday(current) < 6 && OPEN <= current.tick <= CLOSE
      invariant if remaining > 0 then InHours(current) && AddOpen(current, remaining) == AddMinutes(start, minutes)
                else current == AddMinutes(start, minutes)
      decreases remaining, MinutesLeft(current) == 0
    {
      var left := MinutesLeft(current);
      if remaining <= left {
        current := Moment(current.day, current.tick + remaining * MINUTE);
        remaining := 0;
      } else {
        remaining := remaining - left;
        current := OpeningAfter(current);
      }
    }
  }

  // ------------------------------------------------------------ working time

  function Clamp(x: int, lo: int, hi: int): int
    requires lo <= hi
  {
    if x < lo then lo else if x > hi then hi else x
  }

  function WorkdaysBefore(day: int): int {
    day / 7 * 6 + day % 7
  }

  /** Working microseconds from day 0 up to `m`. */
  function Work(m: Moment): int {
    WorkdaysBefore(m.day) * WORKDAY + if Weekday(m) == 6 then 0 else Clamp(m.tick - OPEN, 0, WORKDAY)
  }

  function Tick(m: Instant): Instant {
    if m.tick + 1 == 86_400_000_000 then Moment(m.day + 1, 0) else Moment(m.day, m.tick + 1)
  }

  lemma DayStep(day: int)
    ensures WorkdaysBefore(day + 1) == WorkdaysBefore(day) + if day % 7 == 6 then 0 else 1
    ensures (day + 1) % 7 == if day % 7 == 6 then 0 else day % 7 + 1
  {
    var q, r := day / 7, day % 7;
    assert day + 1 == 7 * q + (r + 1);
    if r == 6 {
      assert (day + 1) / 7 == q + 1;
    } else {
      assert (day + 1) / 7 == q;
    }
  }

  /** `Work` measures working hours: a microsecond counts exactly when it lies between
      09:00 and 18:00 of a day that is no Sunday, day 0 being a Monday. */
  lemma WorkCountsHours(m: Instant)
    ensures Work(Tick(m)) - Work(m) == if m.day % 7 != 6 && 9 <= m.tick / 3_600_000_000 < 18 then 1 else 0
  {
    DayStep(m.day);
  }

  lemma NextWorkdayCounts(day: int)
    ensures NextWorkday(day) % 7 < 6 && NextWorkday(day) > day
    ensures WorkdaysBefore(NextWorkday(day)) == WorkdaysBefore(day) + if day % 7 == 6 then 0 else 1
  {
    DayStep(day);
    DayStep(day + 1);
  }

  lemma AlignKeepsWork(m: Instant)
    ensures InHours(Align(m)) && AtOrBefore(m, Align(m)) && Work(Align(m)) == Work(m)
  {
    NextWorkdayCounts(m.day);
  }

  /** A reading in the closed working window, not at its opening. */
  predicate Reached(m: Moment) {
    Weekday(m) < 6 && OPEN < m.tick <= CLOSE
  }

  lemma WorkOrders(a: Moment, b: Moment)
    requires Weekday(a) < 6 && OPEN <= a.tick <= CLOSE && Reached(b)
    ensures Work(a) < Work(b) ==> StrictlyBefore(a, b)
    ensures Reached(a) ==> (Work(a) <= Work(b) <==> AtOrBefore(a, b))
    ensures Reached(a) && Work(a) == Work(b) ==> a == b
  {
    if a.day < b.day {
      assert WorkdaysBefore(a.day) + 1 <= WorkdaysBefore(b.day);
    } else if a.day > b.day {
      assert WorkdaysBefore(b.day) + 1 <= WorkdaysBefore(a.day);
    }
  }

  /** The lost part of a minute when the day ends before the minutes do. */
  function Lost(current: Moment, minutes: int): int {
    if minutes * MINUTE <= CLOSE - current.tick then 0 else (CLOSE - current.tick) % 60_000_000
  }

  lemma {:induction false} AddOpenWork(current: Instant, minutes: nat)
    requires InHours(current) && minutes > 0
    ensures var r := AddOpen(current, minutes);
      && Reached(r)
      && Work(r) == Work(current) + minutes * MINUTE + Lost(current, minutes)
      && (if minutes * MINUTE <= CLOSE - current.tick
          then r == Moment(current.day, current.tick + minutes * MINUTE)
          else (CLOSE - r.tick) % 60_000_000 == 0)
    decreases minutes, MinutesLeft(current) == 0
  {
    if minutes > MinutesLeft(current) {
      NextWorkdayCounts(current.day);
      AddOpenWork(NextOpening(current), minutes - MinutesLeft(current));
    }
  }

  /** Between start and deadline lie at least the given minutes of working time,
      and less than one minute more; the deadline is in a closed working window. */
  lemma DeadlineBound(start: Instant, minutes: nat)
    ensures var r := AddMinutes(start, minutes);
      && minutes * 60_000_000 <= Work(r) - Work(start) < (minutes + 1) * 60_000_000
      && Weekday(r) < 6 && OPEN <= r.tick <= CLOSE && AtOrBefore(start, r)
  {
    AlignKeepsWork(start);
    var current := Align(start);
    if minutes > 0 {
      AddOpenWork(current, minutes);
      var r := AddMinutes(start, minutes);
      WorkOrders(current, r);
    }
  }

  lemma MinuteMod(ticks: int, minutes: int)
    ensures (ticks - minutes * MINUTE) % 60_000_000 == ticks % 60_000_000
  {
  }

  lemma LostAdds(current: Instant, a: nat, b: nat)
    requires InHours(current) && a > 0 && b > 0
    ensures var mid := AddOpen(current, a);
      Lost(current, a) + Lost(Align(mid), b) == Lost(current, a + b)
  {
    AddOpenWork(current, a);
    var mid := AddOpen(current, a);
    MinuteMod(CLOSE - current.tick, a);
    assert (CLOSE - NextOpening(mid).tick) % 60_000_000 == 0;
  }

  /** Adding in two steps equals adding at once, except when the second step is
      empty and the first one lands on closing time. */
  lemma DeadlineComposition(start: Instant, a: nat, b: nat)
    ensures AddMinutes(AddMinutes(start, a), b) == AddMinutes(start, a + b) <==>
      b > 0 || AddMinutes(start, a).tick != CLOSE
  {
    AlignKeepsWork(start);
    var current := Align(start);
    var mid := AddMinutes(start, a);
    AlignKeepsWork(mid);
    if a > 0 {
      AddOpenWork(current, a);
      if b > 0 {
        LostAdds(current, a, b);
        AddOpenWork(Align(mid), b);
        AddOpenWork(current, a + b);
        WorkOrders(AddMinutes(mid, b), AddMinutes(start, a + b));
      }
    }
  }

  /** Nine hours from Monday 09:00 end at 18:00; zero minutes more start on Tuesday. */
  lemma NothingMoreMovesClosing() returns (start: Instant)
    ensures AddMinutes(start, 540) == Moment(0, CLOSE)
    ensures AddMinutes(AddMinutes(start, 540), 0) == Moment(1, OPEN)
  {
    start := Moment(0, OPEN);
    assert MinutesLeft(start) == 540;
  }

  lemma AlignIsMonotone(s: Instant, t: Instant)
    requires AtOrBefore(s, t)
    ensures AtOrBefore(Align(s), Align(t))
  {
    NextWorkdayCounts(s.day);
    NextWorkdayCounts(t.day);
  }

  lemma LostMonotone(a: Instant, b: Instant, minutes: nat)
    requires InHours(a) && InHours(b) && AtOrBefore(a, b)
    ensures Work(a) + Lost(a, minutes) <= Work(b) + Lost(b, minutes)
  {
    if a.day < b.day {
      assert WorkdaysBefore(a.day) + 1 <= WorkdaysBefore(b.day);
    } else {
      ModGap(CLOSE - a.tick, CLOSE - b.tick);
    }
  }

  /** What is left of a day past its last whole minute shrinks no faster than the day. */
  lemma ModGap(x: int, y: int)
    requires x >= y >= 0
    ensures x % 60_000_000 <= x - y + y % 60_000_000
  {
  }

  /** A later start never gives an earlier deadline. */
  lemma DeadlineMonotoneInStart(s: Instant, t: Instant, minutes: nat)
    requires AtOrBefore(s, t)
    ensures AtOrBefore(AddMinutes(s, minutes), AddMinutes(t, minutes))
  {
    AlignIsMonotone(s, t);
    var a, b := Align(s), Align(t);
    AlignKeepsWork(s);
    AlignKeepsWork(t);
    if minutes > 0 {
      AddOpenWork(a, minutes);
      AddOpenWork(b, minutes);
      LostMonotone(a, b, minutes);
      WorkOrders(AddMinutes(s, minutes), AddMinutes(t, minutes));
    }
  }

  /** More minutes give a strictly later deadline. */
  lemma DeadlineStrictInMinutes(start: Instant, a: nat, b: nat)
    requires a < b
    ensures StrictlyBefore(AddMinutes(start, a), AddMinutes(start, b))
  {
    AlignKeepsWork(start);
    var current := Align(start);
    AddOpenWork(current, b);
    if a > 0 {
      AddOpenWork(current, a);
    }
    WorkOrders(AddMinutes(start, a), AddMinutes(start, b));
  }
}
