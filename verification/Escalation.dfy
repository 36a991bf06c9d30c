/** The escalation clock of a complaint ticket: entry level, hops, the overdue
    sweep, and stopping and restarting the clock. */
module Escalation {
  import opened Wrappers
  import opened BusinessTime
  import opened EscalationLevels
  import StaffHierarchy

  datatype Rule = Rule(windows: map<nat, nat>, workingHoursOnly: bool)

  datatype Hop = Hop(from: Option<nat>, to: nat, staff: nat, bySystem: bool)

  datatype Status = Active | Escalated | Closed

  datatype Ticket = Ticket(level: nat, due: Option<Instant>, status: Status,
                           assignee: Option<nat>, escalatedTo: Option<nat>, history: seq<Hop>)

  /** What a transaction reads: hierarchy and staff, the governing rule, the
      clock, and whether the ESCALATED status master exists. */
  datatype Context = Context(setup: Setup, rule: Option<Rule>, now: Instant, escalatedStatus: bool)

  // ---------------------------------------------------------------- windows

  function AddClock(start: Instant, minutes: nat): Instant {
    var ticks := start.tick + minutes * MINUTE;
    Moment(start.day + ticks / 86_400_000_000, ticks % 86_400_000_000)
  }

  function ComputeDue(minutes: nat, workingHoursOnly: bool, start: Instant): Option<Instant> {
    if minutes == 0 then None
    else if workingHoursOnly then Some(AddMinutes(start, minutes))
    else Some(AddClock(start, minutes))
  }

  function LevelDue(rule: Option<Rule>, level: nat, start: Instant): Option<Instant> {
    if rule.None? || level !in rule.value.windows then None
    else ComputeDue(rule.value.windows[level], rule.value.workingHoursOnly, start)
  }

  // ------------------------------------------------------------ transitions

  /** One hop to the next staffed level, or None when there is no such level. */
  ghost function Hopped(t: Ticket, ctx: Context, bySystem: bool): Option<Ticket> {
    var next := NextLevel(ctx.setup, t.level);
    if next.None? then None
    else
      var (level, staff) := next.value;
      Some(Ticket(level, LevelDue(ctx.rule, level, ctx.now),
                  if ctx.escalatedStatus then Escalated else t.status, t.assignee, Some(staff.id),
                  t.history + [Hop(if t.level == 0 then None else Some(t.level), level, staff.id, bySystem)]))
  }

  predicate Overdue(t: Ticket, now: Instant) {
    t.due.Some? && StrictlyBefore(t.due.value, now) && t.status != Closed
  }

  /** What the sweep does to a ticket its query selected. */
  ghost function Swept(t: Ticket, ctx: Context): Ticket {
    var hop := Hopped(t, ctx, true);
    if hop.Some? then hop.value else t.(due := None)
  }

  /** Where a ticket enters the chain: at the level of its assigned staff member, when
      that member has one, or else at the first staffed level. */
  ghost function EntryLevel(t: Ticket, setup: Setup): Option<nat> {
    if t.assignee.Some? && OwnLevel(setup, t.assignee.value).Some? then OwnLevel(setup, t.assignee.value)
    else if NextLevel(setup, 0).Some? then Some(NextLevel(setup, 0).value.0)
    else None
  }

  /** Placing a ticket that has neither deadline nor level, judged by the caller's copy
      of the row: the columns placement sets are written to the row as it is by then. */
  ghost function Placed(t: Ticket, ctx: Context, copy: Ticket): Ticket {
    if copy.due.Some? || copy.level != 0 || ctx.rule.None? then t
    else
      var entry := EntryLevel(copy, ctx.setup);
      if entry.None? then t
      else t.(level := entry.value, due := LevelDue(ctx.rule, entry.value, ctx.now),
              assignee := if copy.assignee.Some? then t.assignee else Some(NextLevel(ctx.setup, 0).value.1.id))
  }

  /** A new deadline is written only where it differs from the caller's copy. */
  function Redue(t: Ticket, due: Option<Instant>, copy: Ticket): Ticket {
    if due != copy.due then t.(due := due) else t
  }

  /** Handing a ticket over: the column is chosen by the caller's copy. */
  function Assigned(t: Ticket, copy: Ticket, staff: nat): Ticket {
    if copy.escalatedTo.Some? then t.(escalatedTo := Some(staff)) else t.(assignee := Some(staff))
  }

  /** Every write to the columns of a ticket. `copy` is the row as the caller read it,
      which may be older. `Edit` saves a whole copy, holding what the client changed in
      it, over the row. `Sweep` is the locked half of the sweep, whose query read an
      older row too; `Clear` is its later write when there was no level above. */
  datatype Event =
    | Place(ctx: Context, copy: Ticket)
    | Escalate(ctx: Context)
    | Sweep(ctx: Context)
    | Clear
    | Reschedule(ctx: Context, copy: Ticket, levelStartedAt: Instant)
    | Restart(ctx: Context, copy: Ticket)
    | StopClock(copy: Ticket)
    | SetStatus(status: Status)
    | Assign(copy: Ticket, staff: nat)
    | Edit(copy: Ticket)

  ghost function Apply(t: Ticket, e: Event): Ticket {
    match e
    case Place(ctx, copy) => Placed(t, ctx, copy)
    case Escalate(ctx) => if Hopped(t, ctx, false).Some? then Hopped(t, ctx, false).value else t
    case Sweep(ctx) => if Hopped(t, ctx, true).Some? then Hopped(t, ctx, true).value else t
    case Clear => t.(due := None)
    case Reschedule(ctx, copy, at) =>
      if copy.status == Closed || copy.level == 0 || ctx.rule.None? then t else Redue(t, LevelDue(ctx.rule, copy.level, at), copy)
    case Restart(ctx, copy) => Redue(t, LevelDue(ctx.rule, copy.level, ctx.now), copy)
    case StopClock(copy) => if copy.due.Some? then t.(due := None) else t
    case SetStatus(status) => t.(status := status)
    case Assign(copy, staff) => Assigned(t, copy, staff)
    case Edit(copy) => copy.(history := t.history)
  }

  ghost function Run(t: Ticket, events: seq<Event>): Ticket {
    if events == [] then t else Apply(Run(t, events[..|events| - 1]), events[|events| - 1])
  }

  // ----------------------------------------------------- what deadlines mean

  const DAY_TICKS := 86_400_000_000

  /** The deadline of a level that starts at `start`: none without a rule or a positive
      window for the level; as much working time later as the window says, and under a
      minute more; or that many minutes of clock time later to the microsecond. */
  predicate DueAsRuled(rule: Option<Rule>, level: nat, start: Instant, due: Option<Instant>) {
    if rule.None? || level !in rule.value.windows || rule.value.windows[level] == 0 then due.None?
    else
      var minutes := rule.value.windows[level];
      && due.Some?
      && if rule.value.workingHoursOnly
         then
           && minutes * 60_000_000 <= Work(due.value) - Work(start) < (minutes + 1) * 60_000_000
           && due.value.day % 7 != 6 && 9 * 3_600_000_000 <= due.value.tick <= 18 * 3_600_000_000
         else due.value.day * DAY_TICKS + due.value.tick == start.day * DAY_TICKS + start.tick + minutes * 60_000_000
  }

  lemma ClockLater(start: Instant, minutes: nat)
    ensures var r := AddClock(start, minutes);
      r.day * DAY_TICKS + r.tick == start.day * DAY_TICKS + start.tick + minutes * 60_000_000
  {
  }

  lemma LevelDueIsRuled(rule: Option<Rule>, level: nat, start: Instant)
    ensures DueAsRuled(rule, level, start, LevelDue(rule, level, start))
  {
    if rule.Some? && level in rule.value.windows {
      DeadlineBound(start, rule.value.windows[level]);
      ClockLater(start, rule.value.windows[level]);
    }
  }

  /** The row after a hop, manual or by the sweep: the deadline is that of the level
      reached, counted from now; the holder found there is responsible, and one history
      row tells where the ticket came from; assignee and earlier rows stay. */
  lemma HoppedRow(t: Ticket, e: Event)
    requires (e.Escalate? || e.Sweep?) && NextLevel(e.ctx.setup, t.level).Some?
    ensures var u := Apply(t, e); var (level, holder) := NextLevel(e.ctx.setup, t.level).value;
      && u.level == level > t.level && u.escalatedTo == Some(holder.id) && u.assignee == t.assignee
      && DueAsRuled(e.ctx.rule, level, e.ctx.now, u.due)
      && (e.ctx.escalatedStatus ==> u.status == Escalated) && (!e.ctx.escalatedStatus ==> u.status == t.status)
      && |u.history| == |t.history| + 1 && u.history[..|t.history|] == t.history
      && var row := u.history[|t.history|];
         && row.to == level && row.staff == holder.id && row.bySystem == e.Sweep?
         && (t.level == 0 ==> row.from.None?) && (t.level > 0 ==> row.from == Some(t.level))
  {
    NextLevelIsFirst(e.ctx.setup, t.level);
    LevelDueIsRuled(e.ctx.rule, NextLevel(e.ctx.setup, t.level).value.0, e.ctx.now);
  }

  /** With no level left nothing is written, but that the sweep clears the deadline. */
  lemma NothingAbove(t: Ticket, e: Event)
    requires (e.Escalate? || e.Sweep?) && NextLevel(e.ctx.setup, t.level).None?
    ensures Apply(t, e) == t && Apply(t, Clear) == t.(due := None)
  {
  }

  /** Placing a ticket whose copy was never placed: with a rule, it enters at the level of
      the copy's assigned member's own role, or else at the first staffed level, whose
      holder it is assigned to when the copy has nobody; the deadline is that of the level
      entered. */
  lemma PlacedRow(t: Ticket, ctx: Context, copy: Ticket)
    requires copy.due.None? && copy.level == 0 && ctx.rule.Some?
    ensures var u := Apply(t, Place(ctx, copy)); var first := NextLevel(ctx.setup, 0);
      var own := if copy.assignee.Some? then OwnLevel(ctx.setup, copy.assignee.value) else None;
      && u.(level := t.level, due := t.due, assignee := t.assignee) == t
      && (own.None? && first.None? ==> u == t)
      && (own.Some? ==> u.level == own.value)
      && (own.None? && first.Some? ==> u.level == first.value.0)
      && (copy.assignee.None? && first.Some? ==> u.assignee == Some(first.value.1.id))
      && (copy.assignee.Some? ==> u.assignee == t.assignee)
      && (own.Some? || first.Some? ==> DueAsRuled(ctx.rule, u.level, ctx.now, u.due))
  {
    LevelDueIsRuled(ctx.rule, Apply(t, Place(ctx, copy)).level, ctx.now);
  }

  /** No rule, a deadline or a level: placing writes nothing. */
  lemma PlacedOnce(t: Ticket, ctx: Context, copy: Ticket)
    requires copy.due.Some? || copy.level != 0 || ctx.rule.None?
    ensures Apply(t, Place(ctx, copy)) == t
  {
  }

  /** After restarting, the deadline is that of the ticket's level counted from now; after
      rescheduling, an open placed ticket's counts from when the level was reached. No
      other column changes. */
  lemma RenewedDeadline(t: Ticket, ctx: Context, reachedAt: Instant)
    ensures var u := Apply(t, Restart(ctx, t)); u.(due := t.due) == t && DueAsRuled(ctx.rule, t.level, ctx.now, u.due)
    ensures var u := Apply(t, Reschedule(ctx, t, reachedAt));
      && u.(due := t.due) == t
      && if t.status == Closed || t.level == 0 || ctx.rule.None? then u == t else DueAsRuled(ctx.rule, t.level, reachedAt, u.due)
  {
    LevelDueIsRuled(ctx.rule, t.level, ctx.now);
    LevelDueIsRuled(ctx.rule, t.level, reachedAt);
  }

  /** Both from an old copy: the row keeps its deadline or gets the one ruled for the
      copy's level, and gets it for sure when the copy had another. */
  lemma RenewedFromCopy(t: Ticket, ctx: Context, copy: Ticket, reachedAt: Instant)
    ensures var u := Apply(t, Restart(ctx, copy));
      && u.(due := t.due) == t && (u.due == t.due || DueAsRuled(ctx.rule, copy.level, ctx.now, u.due))
      && (!DueAsRuled(ctx.rule, copy.level, ctx.now, copy.due) ==> DueAsRuled(ctx.rule, copy.level, ctx.now, u.due))
    ensures var u := Apply(t, Reschedule(ctx, copy, reachedAt));
      && u.(due := t.due) == t && (u.due == t.due || DueAsRuled(ctx.rule, copy.level, reachedAt, u.due))
      && (copy.status != Closed && copy.level != 0 && ctx.rule.Some? && !DueAsRuled(ctx.rule, copy.level, reachedAt, copy.due) ==>
            DueAsRuled(ctx.rule, copy.level, reachedAt, u.due))
  {
    LevelDueIsRuled(ctx.rule, copy.level, ctx.now);
    LevelDueIsRuled(ctx.rule, copy.level, reachedAt);
  }

  /** The other writes, column by column: stopping clears a deadline the copy had, handing
      over goes to the escalation's holder or else the assignee, and an edit writes back
      all columns of its copy. The history is no column and stays. */
  lemma ColumnsWritten(t: Ticket, copy: Ticket, status: Status, staff: nat)
    ensures Apply(t, StopClock(copy)) == Ticket(t.level, if copy.due.Some? then None else t.due, t.status, t.assignee, t.escalatedTo, t.history)
    ensures Apply(t, SetStatus(status)) == Ticket(t.level, t.due, status, t.assignee, t.escalatedTo, t.history)
    ensures copy.escalatedTo.Some? ==>
      Apply(t, Assign(copy, staff)) == Ticket(t.level, t.due, t.status, t.assignee, Some(staff), t.history)
    ensures copy.escalatedTo.None? ==>
      Apply(t, Assign(copy, staff)) == Ticket(t.level, t.due, t.status, Some(staff), t.escalatedTo, t.history)
    ensures Apply(t, Edit(copy)) == Ticket(copy.level, copy.due, copy.status, copy.assignee, copy.escalatedTo, t.history)
  {
  }

  /** The sweep picks the open tickets whose deadline has passed; those hop, or with
      nothing above lose the deadline. Every other is left alone. */
  lemma SweptExactly(t: Ticket, ctx: Context)
    ensures var due := t.status != Closed && t.due.Some? && (t.due.value.day < ctx.now.day
                         || (t.due.value.day == ctx.now.day && t.due.value.tick < ctx.now.tick));
      && (!due ==> SweepOnce(t, ctx) == t)
      && (due && NextLevel(ctx.setup, t.level).Some? ==> SweepOnce(t, ctx) == Apply(t, Sweep(ctx)) && |SweepOnce(t, ctx).history| == |t.history| + 1)
      && (due && NextLevel(ctx.setup, t.level).None? ==> SweepOnce(t, ctx) == t.(due := None))
  {
  }

  // ------------------------------------------------------- whole-run safety

  predicate GoesUp(history: seq<Hop>) {
    forall i :: 0 <= i < |history| ==> Start(history[i]) < history[i].to
  }

  /** Each hop starts where the previous one ended and goes strictly up; the
      last one ends at the ticket's level. */
  predicate Climbs(t: Ticket) {
    && GoesUp(t.history)
    && (forall i :: 0 < i < |t.history| ==> t.history[i].from == Some(t.history[i - 1].to))
    && (t.history != [] ==> t.history[|t.history| - 1].to == t.level)
  }

  function Start(h: Hop): nat {
    if h.from.Some? then h.from.value else 0
  }

  /** `u` is `t` after at most one hop. */
  predicate Follows(t: Ticket, u: Ticket) {
    || (u.history == t.history && (u.level == t.level || (t.level == 0 && t.history == [])))
    || (|u.history| == |t.history| + 1 && u.history[..|t.history|] == t.history
        && u.history[|t.history|] == Hop(if t.level == 0 then None else Some(t.level), u.level,
                                         u.history[|t.history|].staff, u.history[|t.history|].bySystem)
        && u.level > t.level)
  }

  /** A write judged by an old copy that puts another level over the one the ticket has
      by now: an edit of a copy with another level, or a placement of a copy from before
      the ticket was placed, with another entry level. */
  ghost predicate Clobbers(t: Ticket, e: Event) {
    && t.level != 0
    && match e
       case Edit(copy) => copy.level != t.level
       case Place(ctx, copy) =>
         && copy.level == 0 && copy.due.None? && ctx.rule.Some?
         && EntryLevel(copy, ctx.setup).Some? && EntryLevel(copy, ctx.setup).value != t.level
       case _ => false
  }

  lemma HopFollows(t: Ticket, ctx: Context, bySystem: bool)
    requires Hopped(t, ctx, bySystem).Some?
    ensures Follows(t, Hopped(t, ctx, bySystem).value)
  {
    NextLevelIsFirst(ctx.setup, t.level);
  }

  lemma LevelWritten(t: Ticket, e: Event)
    requires !e.Escalate? && !e.Sweep?
    ensures Apply(t, e).history == t.history
    ensures Apply(t, e).level == t.level || t.level == 0 || Clobbers(t, e)
  {
  }

  lemma FollowsClimbs(t: Ticket, u: Ticket)
    requires Climbs(t) && Follows(t, u)
    ensures Climbs(u) && t.history <= u.history && |u.history| <= |t.history| + 1
    ensures t.level != 0 ==> (u.history == t.history <==> u.level == t.level) && t.level <= u.level
  {
    var n := |t.history|;
    if |u.history| == n + 1 {
      assert forall i :: 0 <= i < n ==> u.history[i] == u.history[..n][i];
    }
  }

  lemma OtherLevelIsNoClimb(t: Ticket, u: Ticket)
    requires Climbs(t) && t.history != [] && u.history == t.history && u.level != t.level
    ensures !Climbs(u)
  {
  }

  lemma StepFollows(t: Ticket, e: Event)
    requires Climbs(t)
    ensures Follows(t, Apply(t, e)) <==> !Clobbers(t, e)
  {
    match e
    case Escalate(ctx) =>
      if Hopped(t, ctx, false).Some? {
        HopFollows(t, ctx, false);
      }
    case Sweep(ctx) =>
      if Hopped(t, ctx, true).Some? {
        HopFollows(t, ctx, true);
      }
    case _ => LevelWritten(t, e);
  }

  lemma ClobberedRow(t: Ticket, e: Event)
    requires Clobbers(t, e)
    ensures Apply(t, e).history == t.history && Apply(t, e).level != t.level
  {
  }

  lemma ClimbsOrNot(t: Ticket, u: Ticket, clobbered: bool)
    requires Climbs(t) && (Follows(t, u) <==> !clobbered)
    requires clobbered ==> u.history == t.history && u.level != t.level
    ensures t.history != [] ==> (Climbs(u) <==> !clobbered)
  {
    if !clobbered {
      FollowsClimbs(t, u);
    } else if t.history != [] {
      OtherLevelIsNoClimb(t, u);
    }
  }

  /** From a climbing history, every write leaves it or adds one hop upward exactly when
      it is no such write; and once there is a history, it goes on climbing to the
      ticket's level exactly then. */
  lemma ApplyFollowsExactly(t: Ticket, e: Event)
    requires Climbs(t)
    ensures Follows(t, Apply(t, e)) <==> !Clobbers(t, e)
    ensures t.history != [] ==> (Climbs(Apply(t, e)) <==> !Clobbers(t, e))
  {
    StepFollows(t, e);
    if Clobbers(t, e) {
      ClobberedRow(t, e);
    }
    ClimbsOrNot(t, Apply(t, e), Clobbers(t, e));
  }

  lemma ApplyGoesUp(t: Ticket, e: Event)
    requires GoesUp(t.history)
    ensures GoesUp(Apply(t, e).history) && t.history <= Apply(t, e).history
  {
    match e
    case Escalate(ctx) => NextLevelIsFirst(ctx.setup, t.level);
    case Sweep(ctx) => NextLevelIsFirst(ctx.setup, t.level);
    case _ =>
  }

  /** Over every run, old copies or not, the history only grows and each hop in it goes
      up from where it started. */
  lemma {:induction false} RunGoesUp(t: Ticket, events: seq<Event>)
    requires GoesUp(t.history)
    ensures GoesUp(Run(t, events).history) && t.history <= Run(t, events).history
  {
    if events != [] {
      var n := |events| - 1;
      RunGoesUp(t, events[..n]);
      ApplyGoesUp(Run(t, events[..n]), events[n]);
    }
  }

  /** How many steps of the run put another level over the ticket's. */
  ghost function Clobberings(t: Ticket, events: seq<Event>): nat {
    if events == [] then 0
    else
      var n := |events| - 1;
      Clobberings(t, events[..n]) + if Clobbers(Run(t, events[..n]), events[n]) then 1 else 0
  }

  ghost predicate Unclobbered(t: Ticket, events: seq<Event>) {
    Clobberings(t, events) == 0
  }

  /** Over any run without such a step, whatever the hierarchy and staff do between steps, the
      history climbs, only grows, and tells the ticket's level. */
  lemma {:induction false} RunClimbs(t: Ticket, events: seq<Event>)
    requires Climbs(t) && Unclobbered(t, events)
    ensures Climbs(Run(t, events)) && t.history <= Run(t, events).history
    ensures t.level != 0 ==>
      (Run(t, events).history == t.history <==> Run(t, events).level == t.level) && t.level <= Run(t, events).level
  {
    if events != [] {
      RunClimbs(t, events[..|events| - 1]);
      var before := Run(t, events[..|events| - 1]);
      ApplyFollowsExactly(before, events[|events| - 1]);
      FollowsClimbs(before, Run(t, events));
    }
  }

  lemma {:induction false} LevelsStrictlyIncrease(t: Ticket, i: nat, j: nat)
    requires Climbs(t) && i < j < |t.history|
    ensures t.history[i].to < t.history[j].to
    decreases j
  {
    if i < j - 1 {
      LevelsStrictlyIncrease(t, i, j - 1);
    }
  }

  /** A hop goes to the lowest staffed level above the ticket's, held by a staff
      member covering its area; escalation fails only when there is none. */
  lemma HopSkipsNoStaffedLevel(t: Ticket, ctx: Context, bySystem: bool)
    ensures var r := Hopped(t, ctx, bySystem);
      if r.Some? then
        && t.level < r.value.level && r.value.level in Levels(ctx.setup).Values
        && (exists s :: s in ctx.setup.staff && r.value.escalatedTo == Some(s.id) &&
              Handles(s, r.value.level, ctx.setup.geo, Levels(ctx.setup)))
        && (forall l, s :: t.level < l < r.value.level && s in ctx.setup.staff ==>
              !Handles(s, l, ctx.setup.geo, Levels(ctx.setup)))
      else
        forall l, s :: l > t.level && s in ctx.setup.staff ==> !Handles(s, l, ctx.setup.geo, Levels(ctx.setup))
  {
    NextLevelIsFirst(ctx.setup, t.level);
    var levels := Levels(ctx.setup);
    forall l, s | s in ctx.setup.staff && Handles(s, l, ctx.setup.geo, levels)
      ensures l in levels.Values && Staffed(ctx.setup, l)
    {
      StaffForLevelIsPreferred(ctx.setup.staff, l, ctx.setup.geo, levels);
    }
    var r := Hopped(t, ctx, bySystem);
    if r.Some? {
      StaffForLevelIsPreferred(ctx.setup.staff, r.value.level, ctx.setup.geo, levels);
    }
  }

  // ----------------------------------------------- fixed hierarchy: bounds

  predicate UsesSetup(e: Event, setup: Setup) {
    match e
    case Place(ctx, _) => ctx.setup == setup
    case Escalate(ctx) => ctx.setup == setup
    case Sweep(ctx) => ctx.setup == setup
    case _ => true
  }

  lemma HopUsesUpALevel(t: Ticket, ctx: Context)
    requires Hopped(t, ctx, true).Some?
    ensures |StaffedAbove(ctx.setup, Swept(t, ctx).level)| < |StaffedAbove(ctx.setup, t.level)|
  {
    NextLevelIsFirst(ctx.setup, t.level);
    var after := Swept(t, ctx);
    var above, rest := StaffedAbove(ctx.setup, t.level), StaffedAbove(ctx.setup, after.level);
    assert after.level in above;
    SetSizes(rest, above - {after.level});
  }

  lemma {:induction false} SetSizes(a: set<nat>, b: set<nat>)
    requires a <= b
    ensures |a| <= |b|
  {
    if a != {} {
      var x :| x in a;
      SetSizes(a - {x}, b - {x});
    }
  }

  /** Hops so far and staffed levels still above. */
  ghost function Budget(t: Ticket, setup: Setup): nat {
    |t.history| + |StaffedAbove(setup, t.level)|
  }

  lemma BudgetOfLevel(t: Ticket, u: Ticket, setup: Setup)
    requires u.history == t.history
    ensures Budget(u, setup) <= Budget(t, setup) + |StaffedAbove(setup, 0)|
    ensures u.level == t.level || t.level == 0 ==> Budget(u, setup) <= Budget(t, setup)
  {
    SetSizes(StaffedAbove(setup, u.level), StaffedAbove(setup, 0));
  }

  lemma BudgetOfHop(t: Ticket, ctx: Context, bySystem: bool)
    ensures var r := Hopped(t, ctx, bySystem); r.Some? ==> Budget(r.value, ctx.setup) <= Budget(t, ctx.setup)
  {
    if Hopped(t, ctx, bySystem).Some? {
      HopUsesUpALevel(t, ctx);
    }
  }

  lemma ApplyKeepsBudget(t: Ticket, e: Event, setup: Setup)
    requires UsesSetup(e, setup)
    ensures Budget(Apply(t, e), setup) <= Budget(t, setup) + if Clobbers(t, e) then |StaffedAbove(setup, 0)| else 0
  {
    if e.Escalate? || e.Sweep? {
      BudgetOfHop(t, e.ctx, e.Sweep?);
    } else {
      LevelWritten(t, e);
      BudgetOfLevel(t, Apply(t, e), setup);
    }
  }

  /** The product, by addition. */
  ghost function Times(count: nat, size: nat): nat {
    if count == 0 then 0 else Times(count - 1, size) + size
  }

  lemma {:induction false} TimesIsProduct(count: nat, size: nat)
    ensures Times(count, size) == count * size
  {
    if count > 0 {
      TimesIsProduct(count - 1, size);
    }
  }

  /** Hops and staffed levels above, against those at the start and all staffed levels
      once for each of `count` writes of another level. */
  ghost predicate WithinBudget(start: Ticket, t: Ticket, count: nat, setup: Setup) {
    Budget(t, setup) <= Budget(start, setup) + Times(count, |StaffedAbove(setup, 0)|)
  }

  lemma StepWithinBudget(start: Ticket, t: Ticket, count: nat, e: Event, setup: Setup)
    requires WithinBudget(start, t, count, setup) && UsesSetup(e, setup)
    ensures WithinBudget(start, Apply(t, e), count + if Clobbers(t, e) then 1 else 0, setup)
  {
    ApplyKeepsBudget(t, e, setup);
  }

  /** What holds at the start and is kept by every step of the events allowed holds after
      the run. */
  lemma {:induction false} RunKeeps(t: Ticket, events: seq<Event>, allowed: Event -> bool, holds: (Ticket, nat) -> bool)
    requires holds(t, 0) && forall e :: e in events ==> allowed(e)
    requires forall u, c: nat, e :: holds(u, c) && allowed(e) ==> holds(Apply(u, e), c + if Clobbers(u, e) then 1 else 0)
    ensures holds(Run(t, events), Clobberings(t, events))
  {
    if events != [] {
      RunKeeps(t, events[..|events| - 1], allowed, holds);
    }
  }

  /** With hierarchy and staff fixed, hops are paid for by staffed levels: those above the
      ticket at the start, and all of them once more for every step that puts another
      level over its own. */
  lemma HopsBoundedByLevels(t: Ticket, events: seq<Event>, setup: Setup)
    requires forall e :: e in events ==> UsesSetup(e, setup)
    ensures |Run(t, events).history| + |StaffedAbove(setup, Run(t, events).level)|
         <= |t.history| + |StaffedAbove(setup, t.level)| + Times(Clobberings(t, events), |StaffedAbove(setup, 0)|)
  {
    forall u, c: nat, e | WithinBudget(t, u, c, setup) && UsesSetup(e, setup)
      ensures WithinBudget(t, Apply(u, e), c + if Clobbers(u, e) then 1 else 0, setup)
    {
      StepWithinBudget(t, u, c, e, setup);
    }
    RunKeeps(t, events, e => UsesSetup(e, setup), (u, c: nat) => WithinBudget(t, u, c, setup));
  }

  /** Undisturbed sweeps: the query and the locked half see the same row. */
  ghost function SweepOnce(t: Ticket, ctx: Context): Ticket {
    if Overdue(t, ctx.now) then Swept(t, ctx) else t
  }

  ghost function SweepRun(t: Ticket, sweeps: seq<Context>): Ticket
    decreases sweeps
  {
    if sweeps == [] then t else SweepRun(SweepOnce(t, sweeps[0]), sweeps[1..])
  }

  /** Each sweep of the list comes after the deadline pending at that point. */
  ghost predicate TimePasses(t: Ticket, sweeps: seq<Context>)
    decreases sweeps
  {
    sweeps != [] ==>
      (t.due.Some? ==> StrictlyBefore(t.due.value, sweeps[0].now)) && TimePasses(SweepOnce(t, sweeps[0]), sweeps[1..])
  }

  lemma {:induction false} NoDeadlineStaysSo(t: Ticket, sweeps: seq<Context>)
    requires t.due.None?
    ensures SweepRun(t, sweeps) == t
  {
    if sweeps != [] {
      NoDeadlineStaysSo(t, sweeps[1..]);
    }
  }

  /** With hierarchy and staff fixed, one sweep per staffed level above the
      ticket and one more leave an open ticket without a pending deadline. */
  lemma {:induction false} SweepsSettle(t: Ticket, sweeps: seq<Context>, setup: Setup)
    requires t.status != Closed && TimePasses(t, sweeps)
    requires forall ctx :: ctx in sweeps ==> ctx.setup == setup
    requires |sweeps| > |StaffedAbove(setup, t.level)|
    ensures SweepRun(t, sweeps).due.None?
    decreases |sweeps|
  {
    var ctx := sweeps[0];
    var after := SweepOnce(t, ctx);
    if t.due.None? || Hopped(t, ctx, true).None? {
      NoDeadlineStaysSo(after, sweeps[1..]);
    } else {
      HopUsesUpALevel(t, ctx);
      SweepsSettle(after, sweeps[1..], setup);
    }
  }

  // ----------------------------------- interference between query and lock

  /** A sweep whose query read `t`, with `between` happening before it locks the
      row: the ticket gains at most one hop since the query exactly when its
      level at the lock is still the queried one, or when nothing is left to
      hop to after a single hop in between. */
  lemma DoubleHopExactly(t: Ticket, between: seq<Event>, ctx: Context)
    requires Climbs(t) && t.level != 0 && Unclobbered(t, between)
    ensures var locked := Run(t, between);
      |Apply(locked, Sweep(ctx)).history| <= |t.history| + 1 <==>
        || locked.level == t.level
        || (NextLevel(ctx.setup, locked.level).None? && |locked.history| <= |t.history| + 1)
  {
    RunClimbs(t, between);
  }

  /** A ticket that is overdue at the sweep's query and closed before the lock stays
      closed exactly when nothing is left above it by then, or the ESCALATED status does
      not exist; otherwise it is open again, at a higher level than it was queried at. */
  lemma ClosedTicketReopensExactly(t: Ticket, between: seq<Event>, ctx: Context)
    requires Climbs(t) && Overdue(t, ctx.now) && Unclobbered(t, between) && Run(t, between).status == Closed
    ensures var locked := Run(t, between); var after := Apply(locked, Sweep(ctx));
      && (after.status == Closed <==> NextLevel(ctx.setup, locked.level).None? || !ctx.escalatedStatus)
      && (after.status != Closed ==>
            after.status == Escalated && after.level > t.level && |after.history| > |t.history| && t.history <= after.history)
  {
    RunClimbs(t, between);
    NextLevelIsFirst(ctx.setup, Run(t, between).level);
    var locked := Run(t, between);
    var after := Apply(locked, Sweep(ctx));
    assert after != locked ==> after.history[..|locked.history|] == locked.history;
  }

  const ROW_B := StaffHierarchy.Row("b", None, map[], 2, true)
  const ROW_C := StaffHierarchy.Row("c", None, map[], 3, true)
  const TWO_LEVELS := Setup([ROW_B, ROW_C], [Staff(1, "b", map[], true, true), Staff(2, "c", map[], true, true)], map[])

  lemma TwoRoleLevels()
    ensures Levels(TWO_LEVELS) == map["b" := 2, "c" := 3]
  {
    var rows := TWO_LEVELS.rows;
    StaffHierarchy.ResolveTwo(ROW_B, ROW_C, map[]);
    assert rows[0] == ROW_B && rows[1] == ROW_C;
    assert Roles(rows) == {"b", "c"};
    assert EntryLevels(rows, map[]) == map["b" := 2, "c" := 3];
    assert forall e :: e in Entries(rows, map[]) ==> e.reportsTo.None?;
    assert TakingPart(rows, map[], true) == map["b" := 2, "c" := 3];
    assert TopLevels(Entries(rows, map[]), EntryLevels(rows, map[])) == map[];
  }

  lemma TwoLevelsFollow()
    ensures NextLevel(TWO_LEVELS, 0).Some? && NextLevel(TWO_LEVELS, 0).value.0 == 2
    ensures NextLevel(TWO_LEVELS, 1).Some? && NextLevel(TWO_LEVELS, 1).value.0 == 2
    ensures NextLevel(TWO_LEVELS, 2).Some? && NextLevel(TWO_LEVELS, 2).value.0 == 3
  {
    TwoRoleLevels();
    var levels: map<StaffHierarchy.Role, nat> := map["b" := 2, "c" := 3];
    assert Handles(TWO_LEVELS.staff[0], 2, map[], levels) && Handles(TWO_LEVELS.staff[1], 3, map[], levels);
    StaffForLevelIsPreferred(TWO_LEVELS.staff, 2, map[], levels);
    StaffForLevelIsPreferred(TWO_LEVELS.staff, 3, map[], levels);
    assert levels["b"] == 2 && levels["c"] == 3;
    assert Staffed(TWO_LEVELS, 2) && Staffed(TWO_LEVELS, 3);
    NextLevelIsFirst(TWO_LEVELS, 0);
    NextLevelIsFirst(TWO_LEVELS, 1);
    NextLevelIsFirst(TWO_LEVELS, 2);
  }

  lemma SomeTwoLevels() returns (setup: Setup)
    ensures NextLevel(setup, 0).Some? && NextLevel(setup, 0).value.0 == 2
    ensures NextLevel(setup, 1).Some? && NextLevel(setup, 1).value.0 == 2 && NextLevel(setup, 2).Some?
  {
    TwoLevelsFollow();
    setup := TWO_LEVELS;
  }

  lemma ManualHopThenSweep(t: Ticket, ctx: Context)
    requires t.level == 1 && NextLevel(ctx.setup, 1).Some? && NextLevel(ctx.setup, 1).value.0 == 2
    requires NextLevel(ctx.setup, 2).Some?
    requires LevelDue(ctx.rule, 2, ctx.now).Some? && !StrictlyBefore(LevelDue(ctx.rule, 2, ctx.now).value, ctx.now)
    ensures var locked := Apply(t, Escalate(ctx));
      !Overdue(locked, ctx.now) && |Apply(locked, Sweep(ctx)).history| == |t.history| + 2
  {
    var locked := Apply(t, Escalate(ctx));
    assert locked.level == 2 && locked.due == LevelDue(ctx.rule, 2, ctx.now);
  }

  /** An overdue ticket that is escalated by hand between the sweep's query and
      its lock hops a second time, although its new deadline lies ahead. */
  lemma ManualHopIsDoubled() returns (t: Ticket, ctx: Context)
    ensures Climbs(t) && t.level != 0 && Overdue(t, ctx.now)
    ensures var locked := Apply(t, Escalate(ctx));
      !Overdue(locked, ctx.now) && |Apply(locked, Sweep(ctx)).history| == |t.history| + 2
  {
    var setup := SomeTwoLevels();
    var rule := Some(Rule(map[2 := 60], false));
    assert AddClock(Moment(1, 0), 60) == Moment(1, 60 * MINUTE);
    ctx := Context(setup, rule, Moment(1, 0), true);
    t := Ticket(1, Some(Moment(0, 0)), Active, None, None, []);
    ManualHopThenSweep(t, ctx);
  }

  /** A ticket at level 1 that is read by an edit, hops, and is saved by the edit. */
  lemma EditOverHop(t: Ticket, ctx: Context)
    requires Climbs(t) && t.level == 1 && t.history == [] && NextLevel(ctx.setup, 1).Some? && NextLevel(ctx.setup, 1).value.0 == 2
    ensures var hopped := Apply(t, Sweep(ctx)); var saved := Apply(hopped, Edit(t)); var again := Apply(saved, Sweep(ctx));
      && Climbs(hopped) && hopped.level == 2 && Clobbers(hopped, Edit(t)) && !Climbs(saved)
      && saved.level == 1 && saved.due == t.due && saved.status == t.status
      && |again.history| == 2 && again.history[0].to == again.history[1].to == 2
  {
    var hopped := Apply(t, Sweep(ctx));
    ApplyFollowsExactly(t, Sweep(ctx));
    FollowsClimbs(t, hopped);
    OtherLevelIsNoClimb(hopped, Apply(hopped, Edit(t)));
  }

  /** An edit that read an overdue ticket before the sweep saves it after: the ticket is
      back at its old level and overdue again, and the next sweep adds a second hop to
      the same level. */
  lemma StaleEditRepeatsLevel() returns (t: Ticket, ctx: Context)
    ensures Climbs(t) && Overdue(t, ctx.now)
    ensures var hopped := Apply(t, Sweep(ctx)); var saved := Apply(hopped, Edit(t)); var again := Apply(saved, Sweep(ctx));
      && Climbs(hopped) && Clobbers(hopped, Edit(t)) && !Climbs(saved) && Overdue(saved, ctx.now)
      && |again.history| == 2 && again.history[0].to == again.history[1].to
  {
    var setup := SomeTwoLevels();
    ctx := Context(setup, None, Moment(1, 0), true);
    t := Ticket(1, Some(Moment(0, 0)), Active, None, None, []);
    EditOverHop(t, ctx);
  }

  lemma PlacedOver(t: Ticket, ctx: Context, copy: Ticket)
    requires copy.due.None? && copy.level == 0 && copy.assignee.None? && ctx.rule.Some? && NextLevel(ctx.setup, 0).Some?
    ensures Placed(t, ctx, copy).level == NextLevel(ctx.setup, 0).value.0 && Placed(t, ctx, copy).history == t.history
  {
  }

  /** A ticket placed from an old copy after it has hopped falls back to its entry level,
      below the last level of its history. */
  lemma StalePlacementLowersTicket() returns (t: Ticket, ctx: Context, copy: Ticket)
    ensures Climbs(t) && t.level == 3 && copy.level == 0 && Apply(t, Place(ctx, copy)).level == 2
    ensures Clobbers(t, Place(ctx, copy)) && !Climbs(Apply(t, Place(ctx, copy)))
  {
    var setup := SomeTwoLevels();
    ctx := Context(setup, Some(Rule(map[], false)), Moment(1, 0), true);
    t := Ticket(3, None, Escalated, None, Some(2), [Hop(Some(2), 3, 2, true)]);
    copy := Ticket(0, None, Active, None, None, []);
    PlacedOver(t, ctx, copy);
    OtherLevelIsNoClimb(t, Apply(t, Place(ctx, copy)));
  }

  lemma ResolvedThenSwept(t: Ticket, ctx: Context) returns (between: seq<Event>)
    requires t.level != 0 && t.due.Some? && NextLevel(ctx.setup, t.level).Some? && ctx.escalatedStatus
    ensures Unclobbered(t, between) && Run(t, between) == t.(status := Closed, due := None)
    ensures Apply(Run(t, between), Sweep(ctx)).status == Escalated
  {
    between := [SetStatus(Closed), StopClock(t)];
    RunOfTwo(t, SetStatus(Closed), StopClock(t));
    ResolvedRow(t);
    SweptWhileClosed(t.(status := Closed, due := None), ctx);
  }

  lemma ResolvedRow(t: Ticket)
    requires t.due.Some?
    ensures Apply(Apply(t, SetStatus(Closed)), StopClock(t)) == t.(status := Closed, due := None)
  {
    assert Apply(t, SetStatus(Closed)) == t.(status := Closed);
  }

  lemma SweptWhileClosed(t: Ticket, ctx: Context)
    requires NextLevel(ctx.setup, t.level).Some? && ctx.escalatedStatus
    ensures Apply(t, Sweep(ctx)).status == Escalated
  {
  }

  lemma RunOfTwo(t: Ticket, first: Event, second: Event)
    requires !first.Place? && !second.Place? && !first.Edit? && !second.Edit?
    ensures Run(t, [first, second]) == Apply(Apply(t, first), second) && Unclobbered(t, [first, second])
  {
    var events := [first, second];
    assert events[..1] == [first] && events[..1][..0] == [];
    RunOfOne(t, first);
  }

  lemma RunOfOne(t: Ticket, e: Event)
    requires !e.Place? && !e.Edit?
    ensures Run(t, [e]) == Apply(t, e) && Unclobbered(t, [e])
  {
    assert [e][..0] == [];
  }

  /** An undisturbed visit of the sweep is the run of its locked half and, where that finds
      no level above, its clearing write. */
  lemma SweepOnceIsRun(t: Ticket, ctx: Context) returns (steps: seq<Event>)
    ensures Run(t, steps) == SweepOnce(t, ctx)
    ensures steps == if !Overdue(t, ctx.now) then [] else if NextLevel(ctx.setup, t.level).Some? then [Sweep(ctx)] else [Sweep(ctx), Clear]
  {
    if !Overdue(t, ctx.now) {
      steps := [];
    } else if NextLevel(ctx.setup, t.level).Some? {
      steps := [Sweep(ctx)];
      RunOfOne(t, Sweep(ctx));
    } else {
      steps := [Sweep(ctx), Clear];
      RunOfTwo(t, Sweep(ctx), Clear);
    }
  }

  /** An overdue ticket that is resolved, its clock stopped, between the sweep's query and
      its lock is open again after the sweep. */
  lemma ClosedTicketIsReopened() returns (t: Ticket, between: seq<Event>, ctx: Context)
    ensures Climbs(t) && Overdue(t, ctx.now) && Unclobbered(t, between)
    ensures Run(t, between).status == Closed && Run(t, between).due.None?
    ensures Apply(Run(t, between), Sweep(ctx)).status == Escalated
  {
    var setup := SomeTwoLevels();
    ctx := Context(setup, None, Moment(1, 0), true);
    t := Ticket(1, Some(Moment(0, 0)), Active, None, None, []);
    between := ResolvedThenSwept(t, ctx);
  }

  // ------------------------------------------------------------ the ticket row

  class ComplaintTicket {
    var level: nat
    var due: Option<Instant>
    var status: Status
    var assignee: Option<nat>
    var escalatedTo: Option<nat>
    var history: seq<Hop>

    function State(): Ticket
      reads this
    {
      Ticket(level, due, status, assignee, escalatedTo, history)
    }

    /** False stands for the ValueError of a ticket with no higher level. */
    method EscalateTicket(ctx: Context, bySystem: bool) returns (ok: bool)
      modifies this
      ensures ok == Hopped(old(State()), ctx, bySystem).Some?
      ensures State() == if ok then Hopped(old(State()), ctx, bySystem).value else old(State())
    {
      var next := NextLevelStaff(ctx.setup, level);
      if next.None? {
        return false;
      }
      var (toLevel, toStaff) := next.value;
      history := history + [Hop(if level == 0 then None else Some(level), toLevel, toStaff.id, bySystem)];
      level := toLevel;
      escalatedTo := Some(toStaff.id);
      due := LevelDue(ctx.rule, toLevel, ctx.now);
      if ctx.escalatedStatus {
        status := Escalated;
      }
      return true;
    }

    /** One undisturbed visit of the sweep; true when the ticket hopped. */
    method SweepIfOverdue(ctx: Context) returns (hopped: bool)
      modifies this
      ensures State() == SweepOnce(old(State()), ctx)
      ensures hopped == Hops(old(State()), ctx)
    {
      hopped := false;
      if Overdue(State(), ctx.now) {
        hopped := EscalateTicket(ctx, true);
        if !hopped {
          due := None;
        }
      }
    }

    /** The caller's copy decides; the columns it sets are written to the row. */
    method SetInitialEscalation(ctx: Context, copy: Ticket)
      modifies this
      ensures State() == Placed(old(State()), ctx, copy)
    {
      if copy.due.Some? || copy.level != 0 || ctx.rule.None? {
        return;
      }
      var entry: Option<nat> := None;
      if copy.assignee.Some? {
        entry := OwnLevelOf(ctx.setup, copy.assignee.value);
      }
      if entry.None? {
        var next := NextLevelStaff(ctx.setup, 0);
        if next.None? {
          return;
        }
        entry := Some(next.value.0);
        if copy.assignee.None? {
          assignee := Some(next.value.1.id);
        }
      }
      level := entry.value;
      due := LevelDue(ctx.rule, level, ctx.now);
    }

    method StopEscalationClock(copy: Ticket)
      modifies this
      ensures State() == Apply(old(State()), StopClock(copy))
    {
      if copy.due.Some? {
        due := None;
      }
    }

    method RestartEscalationClock(ctx: Context, copy: Ticket)
      modifies this
      ensures State() == Apply(old(State()), Restart(ctx, copy))
    {
      var renewed := LevelDue(ctx.rule, copy.level, ctx.now);
      if renewed != copy.due {
        due := renewed;
      }
    }
  }

  ghost predicate Hops(t: Ticket, ctx: Context) {
    Overdue(t, ctx.now) && Hopped(t, ctx, true).Some?
  }

  function CountTrue(flags: seq<bool>): nat {
    if flags == [] then 0 else CountTrue(flags[..|flags| - 1]) + if flags[|flags| - 1] then 1 else 0
  }

  /** The sweep with nothing in between: every overdue ticket is swept once and
      every other ticket is left alone; `count` is the number of hops. Each
      ticket has its own area and rule, hence its own context. */
  method CheckAndEscalateOverdueTickets(tickets: seq<ComplaintTicket>, ctxs: seq<Context>)
    returns (count: nat, ghost hops: seq<bool>)
    requires |ctxs| == |tickets| && forall i, j :: 0 <= i < j < |tickets| ==> tickets[i] != tickets[j]
    modifies tickets
    ensures forall i :: 0 <= i < |tickets| ==> tickets[i].State() == SweepOnce(old(tickets[i].State()), ctxs[i])
    ensures |hops| == |tickets| && count == CountTrue(hops)
    ensures forall i :: 0 <= i < |tickets| ==> hops[i] == Hops(old(tickets[i].State()), ctxs[i])
  {
    ghost var was, want, wantHop := Expected(tickets, ctxs);
    count, hops := SweepAll(tickets, ctxs, was, want, wantHop);
    assert forall k :: 0 <= k < |tickets| ==> Foresees(was[k], ctxs[k], want[k], wantHop[k]);
  }

  ghost predicate Foreseen(was: seq<Ticket>, ctxs: seq<Context>, want: seq<Ticket>, hops: seq<bool>) {
    && |was| == |ctxs| == |want| == |hops|
    && forall k {:trigger Foresees(was[k], ctxs[k], want[k], hops[k])} :: 0 <= k < |was| ==>
      Foresees(was[k], ctxs[k], want[k], hops[k])
  }

  ghost predicate Foresees(was: Ticket, ctx: Context, want: Ticket, hop: bool) {
    want == SweepOnce(was, ctx) && hop == Hops(was, ctx)
  }

  lemma Expected(tickets: seq<ComplaintTicket>, ctxs: seq<Context>)
    returns (was: seq<Ticket>, want: seq<Ticket>, hops: seq<bool>)
    requires |ctxs| == |tickets|
    ensures Foreseen(was, ctxs, want, hops)
    ensures forall k :: 0 <= k < |tickets| ==> was[k] == tickets[k].State()
  {
    was := seq(|tickets|, k requires 0 <= k < |tickets| reads tickets => tickets[k].State());
    want := seq(|tickets|, k requires 0 <= k < |tickets| && |was| == |ctxs| == |tickets| => SweepOnce(was[k], ctxs[k]));
    hops := seq(|tickets|, k requires 0 <= k < |tickets| && |was| == |ctxs| == |tickets| => Hops(was[k], ctxs[k]));
  }

  method SweepAt(ticket: ComplaintTicket, i: nat, ctxs: seq<Context>, ghost was: seq<Ticket>,
                 ghost want: seq<Ticket>, ghost wantHop: seq<bool>)
    returns (hopped: bool)
    requires i < |ctxs| && Foreseen(was, ctxs, want, wantHop) && ticket.State() == was[i]
    modifies ticket
    ensures ticket.State() == want[i] && hopped == wantHop[i]
  {
    assert Foresees(was[i], ctxs[i], want[i], wantHop[i]);
    hopped := ticket.SweepIfOverdue(ctxs[i]);
  }

  method SweepAll(tickets: seq<ComplaintTicket>, ctxs: seq<Context>, ghost was: seq<Ticket>,
                  ghost want: seq<Ticket>, ghost wantHop: seq<bool>)
    returns (count: nat, ghost hops: seq<bool>)
    requires |ctxs| == |tickets| && forall i, j :: 0 <= i < j < |tickets| ==> tickets[i] != tickets[j]
    requires Foreseen(was, ctxs, want, wantHop)
    requires forall k :: 0 <= k < |tickets| ==> tickets[k].State() == was[k]
    modifies tickets
    ensures forall k :: 0 <= k < |tickets| ==> tickets[k].State() == want[k]
    ensures hops == wantHop && count == CountTrue(hops)
  {
    count, hops := 0, [];
    for i := 0 to |tickets|
      invariant forall k :: 0 <= k < i ==> tickets[k].State() == want[k]
      invariant forall k :: i <= k < |tickets| ==> tickets[k].State() == was[k]
      invariant hops == wantHop[..i] && count == CountTrue(hops)
    {
      var hopped := SweepAt(tickets[i], i, ctxs, was, want, wantHop);
      assert (hops + [hopped])[..i] == hops;
      count, hops := count + if hopped then 1 else 0, hops + [hopped];
    }
  }
}
