/** No-collection notices for a trip plan and date, and the daily trips they cancel
    and restore, against generation, driving, Re-Trips and edits of those trips. */
module ServiceNotice {
  import opened Wrappers

  /** A trip plan and a service date. */
  type Slot = (string, int)

  datatype Status = Scheduled | InProgress | Completed | Cancelled

  /** `generated` and `held` are history: the trip came from daily generation rather
      than a Re-Trip, and it was cancelled by the notice now on its slot. */
  datatype Trip = Trip(slot: Slot, status: Status, remarks: string, live: bool, collected: bool,
                       generated: bool, held: bool)

  /** One notice row per slot, true while it is active. Trips in order of creation. */
  datatype State = State(notices: map<Slot, bool>, trips: seq<Trip>)

  const PREFIX := "No collection today:"
  const RESTORED := "Service restored: "
  const CONTINUATION := "Re-Trip continuation of "
  const REPLACEMENT := "Vehicle Breakdown continuation of "
  const OTHER := "OTHER"

  const REASONS: map<string, string> := map[
    "WEATHER" := "Severe weather",
    "FLOOD" := "Flooding",
    "HOLIDAY" := "Public holiday",
    "STAFF_UNAVAILABLE" := "Staff unavailable",
    "VEHICLE_TECHNICAL" := "Vehicle or technical issue",
    "SAFETY" := "Safety issue",
    OTHER := "Other"
  ]

  predicate Prefixed(remarks: string) {
    PREFIX <= remarks
  }

  function NoticeRemarks(reason: string, text: string): (remarks: string)
    requires reason in REASONS
    ensures Prefixed(remarks)
  {
    PREFIX + (" " + if text == "" then REASONS[reason] else text)
  }

  function RestoredRemarks(why: string): (remarks: string)
    ensures !Prefixed(remarks)
  {
    assert RESTORED[0] != PREFIX[0];
    RESTORED + if why == "" then "No-collection notice withdrawn" else why
  }

  function ContinuationRemarks(source: string): (remarks: string)
    ensures !Prefixed(remarks)
  {
    assert CONTINUATION[0] != PREFIX[0];
    CONTINUATION + source
  }

  function ReplacementRemarks(source: string): (remarks: string)
    ensures !Prefixed(remarks)
  {
    assert REPLACEMENT[0] != PREFIX[0];
    REPLACEMENT + source
  }

  predicate Active(s: State, slot: Slot) {
    slot in s.notices && s.notices[slot]
  }

  predicate On(slot: Slot, t: Trip) {
    t.live && t.slot == slot
  }

  // ------------------------------------------------------------ operations

  datatype DeclareOutcome = Declared | AlreadyActive | UnknownReason | TextMissing | AlreadyStarted

  predicate Started(slot: Slot, t: Trip) {
    On(slot, t) && (t.status == InProgress || t.status == Completed || t.collected)
  }

  function Declaring(s: State, slot: Slot, reason: string, text: string): DeclareOutcome {
    if reason !in REASONS then UnknownReason
    else if reason == OTHER && text == "" then TextMissing
    else if Active(s, slot) then AlreadyActive
    else if exists i :: 0 <= i < |s.trips| && Started(slot, s.trips[i]) then AlreadyStarted
    else Declared
  }

  function Hold(slot: Slot, remarks: string, t: Trip): Trip {
    if On(slot, t) && t.status == Scheduled then t.(status := Cancelled, remarks := remarks, held := true) else t
  }

  function Restore(slot: Slot, remarks: string, t: Trip): Trip {
    if On(slot, t) && t.status == Cancelled && Prefixed(t.remarks) then t.(status := Scheduled, remarks := remarks, held := false)
    else if t.slot == slot then t.(held := false)
    else t
  }

  function HoldAll(slot: Slot, remarks: string, trips: seq<Trip>): seq<Trip> {
    seq(|trips|, i requires 0 <= i < |trips| => Hold(slot, remarks, trips[i]))
  }

  function RestoreAll(slot: Slot, remarks: string, trips: seq<Trip>): seq<Trip> {
    seq(|trips|, i requires 0 <= i < |trips| => Restore(slot, remarks, trips[i]))
  }

  predicate Covered(s: State, slot: Slot) {
    exists i :: 0 <= i < |s.trips| && On(slot, s.trips[i])
  }

  function NewTrip(slot: Slot, remarks: string, generated: bool): Trip {
    Trip(slot, Scheduled, remarks, true, false, generated, false)
  }

  /** Steps outside the notice service take no lock between what they read and what they
      write: `seen` is the status of the trip as its caller read it, `atClean` an earlier
      such read, `vacant` whether the query for another trip on the slot found none. The
      screens that save a whole row write the columns as given. */
  datatype Event =
    | Declare(slot: Slot, reason: string, text: string)
    | Revoke(slot: Slot, why: string)
    | Generate(slot: Slot)
    | Create(slot: Slot, vacant: bool, status: Status, remarks: string)    // assignment screen
    | Edit(trip: nat, seen: Status, vacant: bool, slot: Slot, status: Status, remarks: string)
    | Start(trip: nat, seen: Status)                       // driver app or status screen
    | End(trip: nat, seen: Status)                         // driver app or status screen
    | CloseByLog(trip: nat, atClean: Status, seen: Status) // a submitted trip log is saved
    | CloseByStops(trip: nat, seen: Status)                // the last open stop is resolved on a screen
    | Cancel(trip: nat, remarks: string)                   // status screen
    | Collect(trip: nat)                                   // a stop of the trip is collected
    | Delete(trip: nat)
    | Continue(trip: nat, seen: Status, name: string)      // an approved Re-Trip
    | Replace(trip: nat, name: string)                     // an approved vehicle breakdown

  function Write(s: State, i: nat, t: Trip): State
    requires i < |s.trips|
  {
    s.(trips := s.trips[i := t])
  }

  function Join(s: State, t: Trip): State {
    s.(trips := s.trips + [t])
  }

  function Ended(t: Trip, seen: Status): Trip {
    if seen == Completed then t else t.(status := Completed)
  }

  /** What a step that concerns one trip makes of it. */
  function Changed(t: Trip, e: Event): Trip {
    match e
    case Edit(_, seen, vacant, slot, status, remarks) =>
      if seen == Scheduled && vacant then t.(slot := slot, status := status, remarks := remarks) else t
    case Start(_, seen) => if seen == Scheduled then t.(status := InProgress) else t
    case End(_, seen) => if seen == Scheduled || seen == InProgress then t.(status := Completed) else t
    case CloseByLog(_, atClean, seen) => if atClean == Cancelled then t else Ended(t, seen)
    case CloseByStops(_, seen) => Ended(t, seen)
    case Cancel(_, remarks) => t.(status := Cancelled, remarks := remarks)
    case Collect(_) => t.(collected := true)
    case Delete(_) => t.(live := false, status := Cancelled)
    case Continue(_, seen, _) => Ended(t, seen)
    case _ => t
  }

  function Apply(s: State, e: Event): State {
    match e
    case Declare(slot, reason, text) =>
      if Declaring(s, slot, reason, text).Declared?
      then State(s.notices[slot := true], HoldAll(slot, NoticeRemarks(reason, text), s.trips))
      else s
    case Revoke(slot, why) =>
      if Active(s, slot) then State(s.notices[slot := false], RestoreAll(slot, RestoredRemarks(why), s.trips)) else s
    case Generate(slot) => if Active(s, slot) || Covered(s, slot) then s else Join(s, NewTrip(slot, "", true))
    case Create(slot, vacant, status, remarks) =>
      if vacant then Join(s, NewTrip(slot, remarks, false).(status := status)) else s
    case Continue(i, _, name) =>
      if i < |s.trips|
      then Join(Write(s, i, Changed(s.trips[i], e)), NewTrip(s.trips[i].slot, ContinuationRemarks(name), false))
      else s
    case Replace(i, name) =>
      if i < |s.trips| then Join(s, NewTrip(s.trips[i].slot, ReplacementRemarks(name), false)) else s
    case _ => if e.trip < |s.trips| then Write(s, e.trip, Changed(s.trips[e.trip], e)) else s
  }

  function Run(s: State, events: seq<Event>): State {
    if events == [] then s else Apply(Run(s, events[..|events| - 1]), events[|events| - 1])
  }

  // ------------------------------------------------ what each step comes to

  /** Work on the slot has begun: a live trip is under way or done, or one of its stops was
      collected. */
  ghost predicate Begun(s: State, slot: Slot) {
    exists t :: t in s.trips && t.slot == slot && t.live && (t.status == InProgress || t.status == Completed || t.collected)
  }

  lemma BegunIsStarted(s: State, slot: Slot)
    ensures Begun(s, slot) <==> exists i :: 0 <= i < |s.trips| && Started(slot, s.trips[i])
  {
    if Begun(s, slot) {
      var t :| t in s.trips && t.slot == slot && t.live && (t.status == InProgress || t.status == Completed || t.collected);
      var i :| 0 <= i < |s.trips| && s.trips[i] == t;
      assert Started(slot, s.trips[i]);
    }
  }

  /** A notice is refused for an unknown reason, the reason OTHER without a text, a notice
      already active, or work begun, in that order; a refusal changes nothing. */
  lemma DeclareRefusedExactly(s: State, slot: Slot, reason: string, text: string)
    ensures var known := reason in REASONS; var explained := reason == "OTHER" ==> text != "";
      var free := !(slot in s.notices && s.notices[slot]);
      && (Declaring(s, slot, reason, text) == UnknownReason <==> !known)
      && (Declaring(s, slot, reason, text) == TextMissing <==> known && !explained)
      && (Declaring(s, slot, reason, text) == AlreadyActive <==> known && explained && !free)
      && (Declaring(s, slot, reason, text) == AlreadyStarted <==> known && explained && free && Begun(s, slot))
    ensures Declaring(s, slot, reason, text) != Declared ==> Apply(s, Declare(slot, reason, text)) == s
  {
    BegunIsStarted(s, slot);
  }

  /** The rows after a declaration: the slot's live scheduled trips are cancelled, with
      remarks that begin as a notice's do and end with the text, or else the reason. */
  lemma DeclaredRows(s: State, slot: Slot, reason: string, text: string, i: nat)
    requires Declaring(s, slot, reason, text) == Declared && i < |s.trips|
    ensures var u := Apply(s, Declare(slot, reason, text)); var t := s.trips[i];
      && u.notices == s.notices[slot := true] && |u.trips| == |s.trips|
      && if t.live && t.slot == slot && t.status == Scheduled
         then
           var said := if text == "" then REASONS[reason] else text;
           u.trips[i] == t.(status := Cancelled, remarks := "No collection today: " + said, held := true)
         else u.trips[i] == t
  {
    var said := if text == "" then REASONS[reason] else text;
    assert PREFIX + (" " + said) == "No collection today: " + said;
  }

  /** The rows after a revocation: the slot's live cancelled trips that a notice's remarks
      mark are scheduled again, and say why. */
  lemma RevokedRows(s: State, slot: Slot, why: string, i: nat)
    requires i < |s.trips|
    ensures var u := Apply(s, Revoke(slot, why)); var t := s.trips[i];
      if slot in s.notices && s.notices[slot] then
        && u.notices == s.notices[slot := false] && |u.trips| == |s.trips|
        && if t.live && t.slot == slot && t.status == Cancelled && "No collection today:" <= t.remarks
           then
             var said := if why == "" then "No-collection notice withdrawn" else why;
             u.trips[i] == t.(status := Scheduled, remarks := "Service restored: " + said, held := false)
           else u.trips[i].(held := t.held) == t
      else u == s
  {
  }

  /** Generation adds one scheduled trip exactly when no notice is active and the slot has
      no live trip, cancelled ones included. */
  lemma GeneratedExactly(s: State, slot: Slot)
    ensures var u := Apply(s, Generate(slot));
      if !(slot in s.notices && s.notices[slot]) && forall t :: t in s.trips && t.slot == slot ==> !t.live
      then u.notices == s.notices && u.trips == s.trips + [Trip(slot, Scheduled, "", true, false, true, false)]
      else u == s
  {
    if Covered(s, slot) {
      var i :| 0 <= i < |s.trips| && On(slot, s.trips[i]);
      assert s.trips[i] in s.trips;
    }
  }

  /** The steps that complete trip `i`, going by what they read. */
  predicate Completes(e: Event, i: nat) {
    || (e.End? && e.trip == i && e.seen in {Scheduled, InProgress})
    || (e.CloseByLog? && e.trip == i && e.atClean != Cancelled && e.seen != Completed)
    || (e.CloseByStops? && e.trip == i && e.seen != Completed)
    || (e.Continue? && e.trip == i && e.seen != Completed)
  }

  /** What driving and the screens make of a trip that is there: one step, one column, or
      for a cancellation and an edit the columns given. */
  lemma StepOnTrip(s: State, e: Event, i: nat)
    requires !e.Declare? && !e.Revoke? && i < |s.trips|
    ensures i < |Apply(s, e).trips|
    ensures var t, u := s.trips[i], Apply(s, e).trips[i];
      && Apply(s, e).notices == s.notices
      && (e == Start(i, Scheduled) ==> u == t.(status := InProgress))
      && (Completes(e, i) ==> u == t.(status := Completed))
      && (e.Cancel? && e.trip == i ==> u == t.(status := Cancelled, remarks := e.remarks))
      && (e.Edit? && e.trip == i && e.seen == Scheduled && e.vacant ==>
            u == t.(slot := e.slot, status := e.status, remarks := e.remarks))
      && (e == Collect(i) ==> u == t.(collected := true))
      && (e == Delete(i) ==> u == t.(live := false, status := Cancelled))
      && (u != t ==>
            || e == Start(i, Scheduled) || Completes(e, i) || (e.Cancel? && e.trip == i)
            || (e.Edit? && e.trip == i && e.seen == Scheduled && e.vacant) || e == Collect(i) || e == Delete(i))
  {
  }

  /** The trips that steps other than generation add: scheduled and live, on the slot of
      the trip they continue or replace, naming it; or as entered on the screen. */
  lemma StepAddsTrip(s: State, e: Event)
    requires !e.Generate?
    ensures |Apply(s, e).trips| <= |s.trips| + 1
    ensures |Apply(s, e).trips| > |s.trips| <==>
      (e.Continue? && e.trip < |s.trips|) || (e.Replace? && e.trip < |s.trips|) || (e.Create? && e.vacant)
    ensures |Apply(s, e).trips| > |s.trips| ==>
      var t := Apply(s, e).trips[|s.trips|];
      && t.live && !t.collected && !t.generated && !t.held
      && (e.Continue? ==> t.slot == s.trips[e.trip].slot && t.status == Scheduled && t.remarks == "Re-Trip continuation of " + e.name)
      && (e.Replace? ==> t.slot == s.trips[e.trip].slot && t.status == Scheduled && t.remarks == "Vehicle Breakdown continuation of " + e.name)
      && (e.Create? ==> t.slot == e.slot && t.status == e.status && t.remarks == e.remarks)
  {
  }

  // ------------------------------------------------------- safety and undo

  /** A live trip of a slot with an active notice is cancelled, and the trips carrying
      the notice's remarks are the ones that notice cancelled. */
  ghost predicate Kept(s: State, t: Trip) {
    t.live ==>
      && (Active(s, t.slot) ==> t.status == Cancelled)
      && (Prefixed(t.remarks) <==> t.held)
      && (t.held ==> Active(s, t.slot))
  }

  ghost predicate Inv(s: State) {
    forall i :: 0 <= i < |s.trips| ==> Kept(s, s.trips[i])
  }

  predicate UnderNotice(s: State, i: nat) {
    i < |s.trips| && s.trips[i].live && Active(s, s.trips[i].slot)
  }

  /** What the code does not guard against, readable before the step: a write after a
      stale read, stops resolved on a screen, a Re-Trip, a replacement or a new trip on a
      slot under notice, and remarks written in the notice's form or over it. */
  predicate Breaks(s: State, e: Event) {
    match e
    case Create(slot, vacant, status, remarks) => vacant && ((Active(s, slot) && status != Cancelled) || Prefixed(remarks))
    case Edit(i, seen, vacant, slot, status, remarks) =>
      && i < |s.trips| && s.trips[i].live && seen == Scheduled && vacant
      && ((Active(s, slot) && status != Cancelled)
          || Prefixed(remarks) != s.trips[i].held
          || (s.trips[i].held && !Active(s, slot)))
    case Start(i, seen) => UnderNotice(s, i) && seen == Scheduled
    case End(i, seen) => UnderNotice(s, i) && (seen == Scheduled || seen == InProgress)
    case CloseByLog(i, atClean, seen) => UnderNotice(s, i) && atClean != Cancelled && seen != Completed
    case CloseByStops(i, seen) => UnderNotice(s, i) && seen != Completed
    case Cancel(i, remarks) => i < |s.trips| && s.trips[i].live && Prefixed(remarks) != s.trips[i].held
    case Continue(i, _, _) => i < |s.trips| && Active(s, s.trips[i].slot)
    case Replace(i, _) => i < |s.trips| && Active(s, s.trips[i].slot)
    case _ => false
  }

  lemma DeclareKeepsInv(s: State, slot: Slot, reason: string, text: string)
    requires Inv(s) && Declaring(s, slot, reason, text).Declared?
    ensures Inv(Apply(s, Declare(slot, reason, text)))
  {
    var after := Apply(s, Declare(slot, reason, text));
    forall i | 0 <= i < |after.trips| ensures Kept(after, after.trips[i]) {
      assert Kept(s, s.trips[i]) && !Started(slot, s.trips[i]);
    }
  }

  lemma RevokeKeepsInv(s: State, slot: Slot, why: string)
    requires Inv(s) && Active(s, slot)
    ensures Inv(Apply(s, Revoke(slot, why)))
  {
    var after := Apply(s, Revoke(slot, why));
    forall i | 0 <= i < |after.trips| ensures Kept(after, after.trips[i]) {
      assert Kept(s, s.trips[i]);
    }
  }

  lemma WriteKeepsInvExactly(s: State, i: nat, t: Trip)
    requires Inv(s) && i < |s.trips|
    ensures Inv(Write(s, i, t)) <==> Kept(s, t)
  {
    var after := Write(s, i, t);
    assert after.trips[i] == t && forall u :: Kept(after, u) <==> Kept(s, u);
  }

  lemma JoinKeepsInvExactly(s: State, t: Trip)
    requires Inv(s)
    ensures Inv(Join(s, t)) <==> Kept(s, t)
  {
    var after := Join(s, t);
    assert after.trips[|s.trips|] == t && forall u :: Kept(after, u) <==> Kept(s, u);
    forall i | 0 <= i < |s.trips| ensures Kept(after, after.trips[i]) {
      assert after.trips[i] == s.trips[i];
    }
  }

  lemma ContinueKeepsInvExactly(s: State, e: Event)
    requires Inv(s) && e.Continue? && e.trip < |s.trips|
    ensures Inv(Apply(s, e)) <==> !Active(s, s.trips[e.trip].slot)
  {
    var ended := Changed(s.trips[e.trip], e);
    var written, joined := Write(s, e.trip, ended), NewTrip(s.trips[e.trip].slot, ContinuationRemarks(e.name), false);
    assert Kept(s, s.trips[e.trip]);
    WriteKeepsInvExactly(s, e.trip, ended);
    if Active(s, joined.slot) {
      assert Apply(s, e).trips[|s.trips|] == joined && !Kept(Apply(s, e), joined);
    } else {
      JoinKeepsInvExactly(written, joined);
    }
  }

  /** For a step that changes one trip. */
  lemma ChangeKeepsInvExactly(s: State, e: Event)
    requires Inv(s) && !e.Declare? && !e.Revoke? && !e.Generate? && !e.Create? && !e.Continue? && !e.Replace?
    requires e.trip < |s.trips|
    ensures Kept(s, Changed(s.trips[e.trip], e)) <==> !Breaks(s, e)
  {
    assert Kept(s, s.trips[e.trip]);
  }

  /** From a state with the invariant, a step keeps it exactly when it is not one of the
      unguarded ones. */
  lemma StepKeepsInvExactly(s: State, e: Event)
    requires Inv(s)
    ensures Inv(Apply(s, e)) <==> !Breaks(s, e)
  {
    match e
    case Declare(slot, reason, text) =>
      if Declaring(s, slot, reason, text).Declared? {
        DeclareKeepsInv(s, slot, reason, text);
      }
    case Revoke(slot, why) =>
      if Active(s, slot) {
        RevokeKeepsInv(s, slot, why);
      }
    case Generate(slot) => JoinKeepsInvExactly(s, NewTrip(slot, "", true));
    case Create(slot, _, status, remarks) => JoinKeepsInvExactly(s, NewTrip(slot, remarks, false).(status := status));
    case Continue(i, _, _) =>
      if i < |s.trips| {
        ContinueKeepsInvExactly(s, e);
      }
    case Replace(i, name) =>
      if i < |s.trips| {
        JoinKeepsInvExactly(s, NewTrip(s.trips[i].slot, ReplacementRemarks(name), false));
      }
    case _ =>
      if e.trip < |s.trips| {
        WriteKeepsInvExactly(s, e.trip, Changed(s.trips[e.trip], e));
        ChangeKeepsInvExactly(s, e);
      }
  }

  /** No step of the run is an unguarded one. */
  predicate Admissible(s: State, events: seq<Event>) {
    events == [] || (
      && Admissible(s, events[..|events| - 1])
      && !Breaks(Run(s, events[..|events| - 1]), events[|events| - 1]))
  }

  lemma {:induction false} RunKeepsInv(s: State, events: seq<Event>)
    requires Inv(s) && Admissible(s, events)
    ensures Inv(Run(s, events))
  {
    if events != [] {
      RunKeepsInv(s, events[..|events| - 1]);
      StepKeepsInvExactly(Run(s, events[..|events| - 1]), events[|events| - 1]);
    }
  }

  /** Steps that the code does guard, when what they read is still so: declaring,
      revoking, generating, deleting, collecting; starting, ending, cancelling and saving
      a trip log; creating a trip where no notice is active; and editing one in place;
      remarks not written in the notice's form. */
  predicate Guarded(s: State, e: Event) {
    match e
    case Create(slot, _, _, remarks) => !Active(s, slot) && !Prefixed(remarks)
    case Edit(i, seen, _, slot, _, remarks) =>
      i < |s.trips| ==> seen == s.trips[i].status && slot == s.trips[i].slot && !Prefixed(remarks)
    case Start(i, seen) => i < |s.trips| ==> seen == s.trips[i].status
    case End(i, seen) => i < |s.trips| ==> seen == s.trips[i].status
    case CloseByLog(i, atClean, seen) => i < |s.trips| ==> atClean == seen == s.trips[i].status
    case Cancel(i, remarks) => i < |s.trips| ==> remarks == s.trips[i].remarks
    case CloseByStops(_, _) => false
    case Continue(_, _, _) => false
    case Replace(_, _) => false
    case _ => true
  }

  lemma GuardedNeverBreaks(s: State, e: Event)
    requires Inv(s) && Guarded(s, e)
    ensures !Breaks(s, e)
  {
    if (e.Edit? || e.Start? || e.End? || e.CloseByLog? || e.Cancel?) && e.trip < |s.trips| {
      assert Kept(s, s.trips[e.trip]);
    }
  }

  predicate AllGuarded(s: State, events: seq<Event>) {
    events == [] || (
      && AllGuarded(s, events[..|events| - 1])
      && Guarded(Run(s, events[..|events| - 1]), events[|events| - 1]))
  }

  /** Over every run of guarded steps no trip of a plan and date under notice is live
      and uncancelled, and only trips cancelled by that notice carry its remarks. */
  lemma {:induction false} GuardedRunsAreSafe(s: State, events: seq<Event>)
    requires Inv(s) && AllGuarded(s, events)
    ensures Inv(Run(s, events)) && Admissible(s, events)
  {
    if events != [] {
      var before, e := Run(s, events[..|events| - 1]), events[|events| - 1];
      GuardedRunsAreSafe(s, events[..|events| - 1]);
      GuardedNeverBreaks(before, e);
      StepKeepsInvExactly(before, e);
    }
  }

  const EMPTY := State(map[], [])

  lemma RunOfThree(s: State, first: Event, second: Event, third: Event)
    ensures Run(s, [first, second, third]) == Apply(Apply(Apply(s, first), second), third)
  {
    RunAppends(s, [], first);
    RunAppends(s, [first], second);
    RunAppends(s, [first] + [second], third);
    assert [] + [first] == [first] && [first] + [second] + [third] == [first, second, third];
  }

  lemma RunAppends(s: State, events: seq<Event>, e: Event)
    ensures Run(s, events + [e]) == Apply(Run(s, events), e)
  {
    assert (events + [e])[..|events|] == events;
  }

  function Holiday(slot: Slot): Event {
    Declare(slot, "HOLIDAY", "")
  }

  /** One generated trip, cancelled by a notice. */
  lemma NoticeOverOneTrip(slot: Slot) returns (s: State)
    ensures s == Apply(Apply(EMPTY, Generate(slot)), Holiday(slot))
    ensures Active(s, slot) && s.trips == [NewTrip(slot, NoticeRemarks("HOLIDAY", ""), true).(status := Cancelled, held := true)]
  {
    var generated := Apply(EMPTY, Generate(slot));
    assert generated.trips == [NewTrip(slot, "", true)] && !Started(slot, generated.trips[0]);
    s := Apply(generated, Holiday(slot));
  }

  /** A Re-Trip requested on a trip that a notice has since cancelled still goes through:
      the cancelled trip becomes Completed and a Scheduled one joins the slot. */
  lemma ReTripEscapesNotice(slot: Slot) returns (events: seq<Event>)
    ensures var s := Run(EMPTY, events);
      && Active(s, slot) && |s.trips| == 2
      && On(slot, s.trips[0]) && s.trips[0].status == Completed
      && On(slot, s.trips[1]) && s.trips[1].status == Scheduled
  {
    var again := Continue(0, Cancelled, "TRIP-1");
    events := [Generate(slot), Holiday(slot), again];
    var held := NoticeOverOneTrip(slot);
    RunOfThree(EMPTY, Generate(slot), Holiday(slot), again);
  }

  /** So does a start whose screen still showed the trip as scheduled. */
  lemma StaleStartEscapesNotice(slot: Slot) returns (events: seq<Event>)
    ensures var s := Run(EMPTY, events);
      Active(s, slot) && |s.trips| == 1 && On(slot, s.trips[0]) && s.trips[0].status == InProgress
  {
    var start := Start(0, Scheduled);
    events := [Generate(slot), Holiday(slot), start];
    var held := NoticeOverOneTrip(slot);
    RunOfThree(EMPTY, Generate(slot), Holiday(slot), start);
  }

  /** And a new trip entered on the assignment screen, which looks for other trips of the
      date but not for a notice. */
  lemma CreatedTripEscapesNotice(slot: Slot) returns (events: seq<Event>)
    ensures var s := Run(EMPTY, events);
      Active(s, slot) && |s.trips| == 2 && On(slot, s.trips[1]) && s.trips[1].status == Scheduled
  {
    var create := Create(slot, true, Scheduled, "");
    events := [Generate(slot), Holiday(slot), create];
    var held := NoticeOverOneTrip(slot);
    RunOfThree(EMPTY, Generate(slot), Holiday(slot), create);
  }

  // ------------------------------------------------------------- exact undo

  /** The trips whose row an edit of the run wrote. */
  function EditedBy(events: seq<Event>): set<nat> {
    set e | e in events && e.Edit? && e.seen == Scheduled && e.vacant :: e.trip
  }

  /** While the notice stands, the trips it cancelled stay marked, and no trip that came
      later is; edited trips aside. */
  ghost predicate Standing(slot: Slot, declared: State, s: State, edited: set<nat>) {
    && Inv(s) && Active(s, slot) && |declared.trips| <= |s.trips|
    && (forall i :: 0 <= i < |s.trips| && i !in edited ==> Marked(slot, declared, s, i))
  }

  predicate Marked(slot: Slot, declared: State, s: State, i: nat)
    requires i < |s.trips|
  {
    if i < |declared.trips| then
      && s.trips[i].slot == declared.trips[i].slot
      && (s.trips[i].live ==> declared.trips[i].live)
      && (s.trips[i].slot == slot ==> s.trips[i].held == declared.trips[i].held)
    else s.trips[i].slot == slot ==> !s.trips[i].held
  }

  /** What a step does to the rows that are there, other than one it edits. */
  lemma StepMarks(slot: Slot, s: State, e: Event, i: nat)
    requires Active(s, slot) && !(e.Revoke? && e.slot == slot) && i < |s.trips| && i !in EditedBy([e])
    ensures i < |Apply(s, e).trips|
    ensures var t, u := s.trips[i], Apply(s, e).trips[i];
      u.slot == t.slot && (u.live ==> t.live) && (t.slot == slot ==> u.held == t.held)
  {
    assert e in [e];
  }

  lemma StepJoins(slot: Slot, s: State, e: Event, i: nat)
    requires |s.trips| <= i < |Apply(s, e).trips|
    ensures !Apply(s, e).trips[i].held
  {
  }

  lemma StepKeepsStanding(slot: Slot, declared: State, s: State, e: Event, edited: set<nat>)
    requires Standing(slot, declared, s, edited) && !Breaks(s, e) && !(e.Revoke? && e.slot == slot)
    ensures Standing(slot, declared, Apply(s, e), edited + EditedBy([e]))
  {
    StepKeepsInvExactly(s, e);
    var after := Apply(s, e);
    forall i | 0 <= i < |after.trips| && i !in edited + EditedBy([e]) ensures Marked(slot, declared, after, i) {
      if i < |s.trips| {
        assert Marked(slot, declared, s, i);
        StepMarks(slot, s, e, i);
      } else {
        StepJoins(slot, s, e, i);
      }
    }
  }

  lemma {:induction false} RunKeepsStanding(slot: Slot, declared: State, events: seq<Event>)
    requires Standing(slot, declared, declared, {}) && Admissible(declared, events)
    requires forall e :: e in events ==> !(e.Revoke? && e.slot == slot)
    ensures Standing(slot, declared, Run(declared, events), EditedBy(events))
  {
    if events != [] {
      var before, e := events[..|events| - 1], events[|events| - 1];
      RunKeepsStanding(slot, declared, before);
      StepKeepsStanding(slot, declared, Run(declared, before), e, EditedBy(before));
      assert events == before + [e];
      assert EditedBy(events) == EditedBy(before) + EditedBy([e]);
    }
  }

  /** What revoking gives back, read off the rows before the declaration. */
  ghost predicate Undone(slot: Slot, s: State, restored: State, edited: set<nat>) {
    // every trip of the slot still live has its old status and no trace of the notice
    && (forall i :: 0 <= i < |s.trips| && i < |restored.trips| && i !in edited && On(slot, s.trips[i]) && restored.trips[i].live ==>
         restored.trips[i].status == s.trips[i].status && !Prefixed(restored.trips[i].remarks))
    // and no other trip of the slot is scheduled now
    && (forall i :: 0 <= i < |restored.trips| && i !in edited && On(slot, restored.trips[i]) && restored.trips[i].status == Scheduled ==>
         i < |s.trips| && On(slot, s.trips[i]) && s.trips[i].status == Scheduled)
  }

  lemma DeclareStands(s: State, slot: Slot, reason: string, text: string)
    requires Inv(s) && Declaring(s, slot, reason, text).Declared?
    ensures var declared := Apply(s, Declare(slot, reason, text)); Standing(slot, declared, declared, {})
  {
    DeclareKeepsInv(s, slot, reason, text);
  }

  /** The trips that revoking schedules are the ones the notice marks. */
  lemma RevokeRestoresMarked(held: State, slot: Slot, why: string, i: nat)
    requires Inv(held) && Active(held, slot) && i < |held.trips| && On(slot, held.trips[i])
    ensures var restored := Apply(held, Revoke(slot, why));
      restored.trips[i].status == (if held.trips[i].held then Scheduled else Cancelled) && !Prefixed(restored.trips[i].remarks)
  {
    assert Kept(held, held.trips[i]);
  }

  lemma DeclareMarksScheduled(s: State, slot: Slot, reason: string, text: string, i: nat)
    requires Inv(s) && Declaring(s, slot, reason, text).Declared? && i < |s.trips| && s.trips[i].live
    ensures var t := Apply(s, Declare(slot, reason, text)).trips[i];
      && t.slot == s.trips[i].slot && t.live
      && (t.slot == slot ==> s.trips[i].status == if t.held then Scheduled else Cancelled)
  {
    assert Kept(s, s.trips[i]) && !Started(slot, s.trips[i]);
  }

  /** Revoking undoes declaring, whatever admissible steps come in between. */
  lemma RevokeUndoesDeclare(s: State, slot: Slot, reason: string, text: string, events: seq<Event>, why: string)
    requires Inv(s) && Declaring(s, slot, reason, text).Declared?
    requires Admissible(Apply(s, Declare(slot, reason, text)), events)
    requires forall e :: e in events ==> !(e.Revoke? && e.slot == slot)
    ensures var held := Run(Apply(s, Declare(slot, reason, text)), events); var restored := Apply(held, Revoke(slot, why));
      && |restored.trips| == |held.trips| >= |s.trips|
      && Undone(slot, s, restored, EditedBy(events))
      && (forall i :: 0 <= i < |held.trips| && held.trips[i].slot != slot ==> restored.trips[i] == held.trips[i])
      && Inv(restored)
  {
    var declared := Apply(s, Declare(slot, reason, text));
    DeclareStands(s, slot, reason, text);
    RunKeepsStanding(slot, declared, events);
    var held := Run(declared, events);
    RevokeKeepsInv(held, slot, why);
    var restored := Apply(held, Revoke(slot, why));
    forall i | 0 <= i < |s.trips| && i !in EditedBy(events) && On(slot, s.trips[i]) && restored.trips[i].live
      ensures restored.trips[i].status == s.trips[i].status && !Prefixed(restored.trips[i].remarks)
    {
      assert Marked(slot, declared, held, i);
      DeclareMarksScheduled(s, slot, reason, text, i);
      RevokeRestoresMarked(held, slot, why, i);
    }
    forall i | 0 <= i < |restored.trips| && i !in EditedBy(events) && On(slot, restored.trips[i]) && restored.trips[i].status == Scheduled
      ensures i < |s.trips| && On(slot, s.trips[i]) && s.trips[i].status == Scheduled
    {
      assert Marked(slot, declared, held, i);
      RevokeRestoresMarked(held, slot, why, i);
      DeclareMarksScheduled(s, slot, reason, text, i);
    }
  }

  // -------------------------------------------------- one generated trip a day

  /** No two live trips of one slot both come from daily generation. */
  ghost predicate OneGenerated(s: State) {
    forall i, j :: 0 <= i < j < |s.trips| && s.trips[i].generated && s.trips[j].generated && s.trips[i].live ==>
      !On(s.trips[i].slot, s.trips[j])
  }

  /** An edit moves a generated trip to a slot that has another one: it looks for trips
      that are not cancelled only. */
  ghost predicate Doubles(s: State, e: Event) {
    && e.Edit? && e.seen == Scheduled && e.vacant && e.trip < |s.trips|
    && s.trips[e.trip].live && s.trips[e.trip].generated
    && exists j :: 0 <= j < |s.trips| && j != e.trip && s.trips[j].generated && On(e.slot, s.trips[j])
  }

  lemma StepKeepsOneGenerated(s: State, e: Event)
    requires OneGenerated(s)
    ensures OneGenerated(Apply(s, e)) <==> !Doubles(s, e)
  {
    var after := Apply(s, e);
    if e.Edit? && e.trip < |s.trips| {
      EditKeepsOneGenerated(s, e);
    } else {
      forall i | 0 <= i < |s.trips|
        ensures after.trips[i].slot == s.trips[i].slot && after.trips[i].generated == s.trips[i].generated
        ensures after.trips[i].live ==> s.trips[i].live
      {
      }
      assert |after.trips| <= |s.trips| + 1;
      if |after.trips| > |s.trips| && after.trips[|s.trips|].generated {
        assert e.Generate? && forall i :: 0 <= i < |s.trips| ==> !On(e.slot, s.trips[i]);
      }
    }
  }

  lemma EditKeepsOneGenerated(s: State, e: Event)
    requires OneGenerated(s) && e.Edit? && e.trip < |s.trips|
    ensures OneGenerated(Apply(s, e)) <==> !Doubles(s, e)
  {
    var after, k := Apply(s, e), e.trip;
    assert forall i :: 0 <= i < |s.trips| && i != k ==> after.trips[i] == s.trips[i];
    if Doubles(s, e) {
      var j :| 0 <= j < |s.trips| && j != k && s.trips[j].generated && On(e.slot, s.trips[j]);
      var low, high := if j < k then j else k, if j < k then k else j;
      assert after.trips[low].generated && after.trips[high].generated && after.trips[low].live && On(after.trips[low].slot, after.trips[high]);
    }
  }

  ghost predicate NoneDoubles(s: State, events: seq<Event>) {
    events == [] || (
      && NoneDoubles(s, events[..|events| - 1])
      && !Doubles(Run(s, events[..|events| - 1]), events[|events| - 1]))
  }

  /** However often the generators run, with whatever in between but such an edit. */
  lemma {:induction false} RunsGenerateOnce(s: State, events: seq<Event>)
    requires OneGenerated(s) && NoneDoubles(s, events)
    ensures OneGenerated(Run(s, events))
  {
    if events != [] {
      RunsGenerateOnce(s, events[..|events| - 1]);
      StepKeepsOneGenerated(Run(s, events[..|events| - 1]), events[|events| - 1]);
    }
  }

  lemma TwoOnOneSlot(before: State, slot: Slot, other: Slot, remarks: string)
    requires slot != other
    requires before.trips == [NewTrip(slot, "", true).(status := Cancelled, remarks := remarks), NewTrip(other, "", true)]
    ensures var move := Edit(1, Scheduled, true, slot, Scheduled, "");
      OneGenerated(before) && Doubles(before, move) && !OneGenerated(Apply(before, move))
  {
    assert On(slot, before.trips[0]);
    StepKeepsOneGenerated(before, Edit(1, Scheduled, true, slot, Scheduled, ""));
  }

  /** A generated trip is cancelled on the status screen, and the generated trip of another
      slot is moved over: no trip on the slot is in the mover's way, as the only one there
      is cancelled, and both are live and generated. */
  lemma MovedTripDoubles(slot: Slot, other: Slot) returns (before: State, move: Event)
    requires slot != other
    ensures before == Run(EMPTY, [Generate(slot), Cancel(0, ""), Generate(other)])
    ensures forall t :: t in before.trips && On(slot, t) ==> t.status == Cancelled
    ensures OneGenerated(before) && Doubles(before, move) && !OneGenerated(Apply(before, move))
  {
    RunOfThree(EMPTY, Generate(slot), Cancel(0, ""), Generate(other));
    before := Run(EMPTY, [Generate(slot), Cancel(0, ""), Generate(other)]);
    move := Edit(1, Scheduled, true, slot, Scheduled, "");
    assert Apply(EMPTY, Generate(slot)).trips == [NewTrip(slot, "", true)];
    TwoOnOneSlot(before, slot, other, "");
  }

  // --------------------------------------------------------------- row tables

  predicate Oldest(slot: Slot, trips: seq<Trip>, i: nat) {
    i < |trips| && On(slot, trips[i]) && forall j :: 0 <= j < i ==> !On(slot, trips[j])
  }

  class DailyOperations {
    var notices: map<Slot, bool>
    var trips: seq<Trip>

    ghost function Now(): State
      reads this
    {
      State(notices, trips)
    }

    /** The oldest live trip of the slot. */
    method ExistingAssignment(slot: Slot) returns (found: Option<nat>)
      ensures found.None? <==> !Covered(Now(), slot)
      ensures found.Some? ==> Oldest(slot, trips, found.value)
    {
      var i := 0;
      while i < |trips|
        invariant i <= |trips| && forall j :: 0 <= j < i ==> !On(slot, trips[j])
      {
        if On(slot, trips[i]) {
          return Some(i);
        }
        i := i + 1;
      }
      return None;
    }

    method HasStarted(slot: Slot) returns (started: bool)
      ensures started <==> exists i :: 0 <= i < |trips| && Started(slot, trips[i])
    {
      var i := 0;
      while i < |trips|
        invariant i <= |trips| && forall j :: 0 <= j < i ==> !Started(slot, trips[j])
      {
        if Started(slot, trips[i]) {
          return true;
        }
        i := i + 1;
      }
      return false;
    }

    method CancelScheduled(slot: Slot, remarks: string)
      modifies this`trips
      ensures trips == HoldAll(slot, remarks, old(trips))
    {
      var i := 0;
      while i < |trips|
        invariant i <= |trips| == |old(trips)|
        invariant forall j :: 0 <= j < i ==> trips[j] == Hold(slot, remarks, old(trips[j]))
        invariant forall j :: i <= j < |trips| ==> trips[j] == old(trips[j])
      {
        trips := trips[i := Hold(slot, remarks, trips[i])];
        i := i + 1;
      }
    }

    method RestoreCancelled(slot: Slot, remarks: string)
      modifies this`trips
      ensures trips == RestoreAll(slot, remarks, old(trips))
    {
      var i := 0;
      while i < |trips|
        invariant i <= |trips| == |old(trips)|
        invariant forall j :: 0 <= j < i ==> trips[j] == Restore(slot, remarks, old(trips[j]))
        invariant forall j :: i <= j < |trips| ==> trips[j] == old(trips[j])
      {
        trips := trips[i := Restore(slot, remarks, trips[i])];
        i := i + 1;
      }
    }

    method DeclareNoCollection(slot: Slot, reason: string, text: string) returns (outcome: DeclareOutcome)
      modifies this
      ensures outcome == old(Declaring(Now(), slot, reason, text))
      ensures Now() == old(Apply(Now(), Declare(slot, reason, text)))
    {
      if reason !in REASONS {
        return UnknownReason;
      }
      if reason == OTHER && text == "" {
        return TextMissing;
      }
      if slot in notices && notices[slot] {
        return AlreadyActive;
      }
      var started := HasStarted(slot);
      if started {
        return AlreadyStarted;
      }
      CancelScheduled(slot, NoticeRemarks(reason, text));
      notices := notices[slot := true];
      return Declared;
    }

    method RevokeNoCollection(slot: Slot, why: string) returns (revoked: bool)
      requires slot in notices
      modifies this
      ensures revoked == old(Active(Now(), slot))
      ensures Now() == old(Apply(Now(), Revoke(slot, why)))
    {
      if !notices[slot] {
        return false;
      }
      notices := notices[slot := false];
      RestoreCancelled(slot, RestoredRemarks(why));
      return true;
    }

    /** `None` when a notice blocks the date; the trip found or created otherwise. */
    method GenerateAssignment(slot: Slot) returns (assignment: Option<nat>, created: bool)
      modifies this`trips
      ensures Now() == old(Apply(Now(), Generate(slot)))
      ensures assignment.None? <==> old(Active(Now(), slot))
      ensures created == old(!Active(Now(), slot) && !Covered(Now(), slot))
      ensures assignment.Some? ==> Oldest(slot, trips, assignment.value)
    {
      if slot in notices && notices[slot] {
        return None, false;
      }
      assignment := ExistingAssignment(slot);
      created := assignment.None?;
      if created {
        assignment := Some(|trips|);
        trips := trips + [NewTrip(slot, "", true)];
      }
    }
  }
}
