/** The decision window of a Re-Trip request: reminder, escalation, expiry,
    approval and rejection, interleaved in any order. */
module RetripDecision {
  import opened Wrappers

  datatype Status = Pending | Approved | Rejected | Expired

  /** Everything sent or decided about a request, in commit order. `Decided`
      keeps the clock reading that passed the deadline check. */
  datatype Note =
    | ReminderSent(at: int)
    | EscalationSent(at: int)
    | ExpirySent(at: int)
    | Decided(status: Status, checkedAt: int, stampedAt: int)

  datatype Request = Request(status: Status, createdAt: int, expiresAt: Option<int>,
                             reminderSentAt: Option<int>, escalatedAt: Option<int>, reviewedAt: Option<int>,
                             deleted: bool, log: seq<Note>)

  // -------------------------------------------------------------- windows

  /** Windows in clock units; raw settings are clamped as the environment reader does. */
  datatype Windows = Windows(timeout: int, reminder: int, escalation: int)

  function Min(a: int, b: int): int {
    if a <= b then a else b
  }

  function AtLeastOne(raw: Option<int>, default: int): int {
    if raw.None? then default else if raw.value < 1 then 1 else raw.value
  }

  function FromEnvironment(expiry: Option<int>, reminder: Option<int>, escalation: Option<int>, unit: int): Windows {
    var timeout := AtLeastOne(expiry, 30);
    Windows(timeout * unit, Min(AtLeastOne(reminder, 10), timeout) * unit, Min(AtLeastOne(escalation, 20), timeout) * unit)
  }

  function Deadline(r: Request, w: Windows): int {
    if r.expiresAt.Some? then r.expiresAt.value else r.createdAt + w.timeout
  }

  // --------------------------------------------- transactions on a locked row

  predicate ExpiryDue(r: Request, w: Windows, now: int) {
    r.status == Pending && now >= Deadline(r, w)
  }

  function ExpireLocked(r: Request, w: Windows, now: int): Request {
    if !ExpiryDue(r, w, now) then r
    else r.(status := Expired, expiresAt := Some(Deadline(r, w)), reviewedAt := Some(now), log := r.log + [ExpirySent(now)])
  }

  /** The body of the sweep loop for one request of its snapshot. */
  function SweepLocked(r: Request, w: Windows, now: int): Request {
    if r.status != Pending || r.deleted then r
    else
      var stamped := r.(expiresAt := Some(Deadline(r, w)));
      var age := now - r.createdAt;
      if ExpiryDue(stamped, w, now) then ExpireLocked(stamped, w, now)
      else if age >= w.escalation && r.escalatedAt.None? then
        stamped.(escalatedAt := Some(now), reminderSentAt := if r.reminderSentAt.None? then Some(now) else r.reminderSentAt,
                 log := r.log + [EscalationSent(now)])
      else if age >= w.reminder && r.reminderSentAt.None? then
        stamped.(reminderSentAt := Some(now), log := r.log + [ReminderSent(now)])
      else stamped
  }

  /** A supervisor's decision. The clock is read three times: `t0` before the
      row lock (for the on-demand expiry), `t1` for the deadline check, `t2` for
      the stamp, or for the expiry of a late one. `fails` is an error raised by the work in between, which rolls
      the transaction back, as does deciding a request that is not pending. */
  function Decide(r: Request, w: Windows, verdict: Status, t0: int, t1: int, t2: int, fails: bool): Request {
    if ExpiryDue(r, w, t0) then ExpireLocked(r, w, t0)
    else if r.status != Pending then r
    else if t1 >= Deadline(r, w) then ExpireLocked(r, w, t2)
    else if fails then r
    else r.(status := verdict, reviewedAt := Some(t2), log := r.log + [Decided(verdict, t1, t2)])
  }

  datatype Event =
    | Sweep(now: int)
    | ExpireOnDemand(now: int)
    | Approve(t0: int, t1: int, t2: int, fails: bool)
    | Reject(t0: int, t1: int, t2: int)
    | SoftDelete

  function Apply(r: Request, w: Windows, e: Event): Request {
    match e
    case Sweep(now) => SweepLocked(r, w, now)
    case ExpireOnDemand(now) => ExpireLocked(r, w, now)
    case Approve(t0, t1, t2, fails) => Decide(r, w, Approved, t0, t1, t2, fails)
    case Reject(t0, t1, t2) => Decide(r, w, Rejected, t0, t1, t2, false)
    case SoftDelete => r.(deleted := true)
  }

  function Run(r: Request, w: Windows, events: seq<Event>): Request {
    if events == [] then r else Apply(Run(r, w, events[..|events| - 1]), w, events[|events| - 1])
  }

  /** A request as the driver's call creates it (rows from before the stamp have no expiry). */
  predicate Fresh(r: Request) {
    r.status == Pending && r.reminderSentAt.None? && r.escalatedAt.None? && r.reviewedAt.None? && r.log == []
  }

  // ----------------------------------------------------------- invariant

  predicate IsDecision(n: Note) {
    n.Decided? || n.ExpirySent?
  }

  predicate Consistent(r: Request, w: Windows) {
    // a final note stands exactly when the request left Pending, and it is last
    && (forall i :: 0 <= i < |r.log| && IsDecision(r.log[i]) ==> i == |r.log| - 1)
    && (r.status != Pending ==> r.log != [] && IsDecision(r.log[|r.log| - 1]) && FinalNoteFits(r, w, r.log[|r.log| - 1]))
    && (r.status == Pending ==> forall n :: n in r.log ==> !IsDecision(n))
    // one reminder, one escalation, no reminder after an escalation
    && (forall i :: 0 <= i < |r.log| && r.log[i].ReminderSent? ==> r.reminderSentAt == Some(r.log[i].at))
    && (forall i :: 0 <= i < |r.log| && r.log[i].EscalationSent? ==> r.escalatedAt == Some(r.log[i].at))
    && (r.escalatedAt.Some? ==> r.reminderSentAt.Some?)
    && (forall i, j :: 0 <= i < j < |r.log| ==> Follows(r.log[i], r.log[j]))
  }

  predicate FinalNoteFits(r: Request, w: Windows, n: Note) {
    match n
    case Decided(status, checkedAt, stampedAt) =>
      status == r.status && status in {Approved, Rejected} && checkedAt < Deadline(r, w) && r.reviewedAt == Some(stampedAt)
    case ExpirySent(at) => r.status == Expired && at >= Deadline(r, w) && r.reviewedAt == Some(at)
    case _ => false
  }

  /** Which note may come after which. */
  predicate Follows(earlier: Note, later: Note) {
    match earlier
    case ReminderSent(_) => !later.ReminderSent?
    case EscalationSent(_) => !later.ReminderSent? && !later.EscalationSent?
    case _ => false
  }

  lemma ApplyKeepsDeadline(r: Request, w: Windows, e: Event)
    ensures Deadline(Apply(r, w, e), w) == Deadline(r, w)
    ensures r.expiresAt.Some? ==> Apply(r, w, e).expiresAt == r.expiresAt
    ensures r.status != Pending ==> Apply(r, w, e).(deleted := r.deleted) == r
  {
  }

  /** A step sends nothing, or appends one note to a pending request's log. */
  predicate Extends(r: Request, u: Request, w: Windows) {
    if u.log == r.log then
      && u.status == r.status && u.reminderSentAt == r.reminderSentAt
      && u.escalatedAt == r.escalatedAt && u.reviewedAt == r.reviewedAt
    else
      && r.status == Pending && u.log != [] && u.log[..|u.log| - 1] == r.log
      && match u.log[|u.log| - 1]
         case ReminderSent(at) =>
           u.status == Pending && r.reminderSentAt.None? && u.reminderSentAt == Some(at) && u.escalatedAt == r.escalatedAt
         case EscalationSent(at) =>
           && u.status == Pending && r.escalatedAt.None? && u.escalatedAt == Some(at)
           && u.reminderSentAt == if r.reminderSentAt.Some? then r.reminderSentAt else Some(at)
         case n =>
           FinalNoteFits(u, w, n) && u.reminderSentAt == r.reminderSentAt && u.escalatedAt == r.escalatedAt
  }

  lemma ExpireExtends(r: Request, w: Windows, now: int)
    ensures Extends(r, ExpireLocked(r, w, now), w)
  {
    assert (r.log + [ExpirySent(now)])[..|r.log|] == r.log;
  }

  lemma SweepExtends(r: Request, w: Windows, now: int)
    ensures Extends(r, SweepLocked(r, w, now), w)
  {
    var u := SweepLocked(r, w, now);
    ExpireExtends(r.(expiresAt := Some(Deadline(r, w))), w, now);
    if u.log != r.log {
      assert u.log[..|r.log|] == r.log;
    }
  }

  lemma DecideExtends(r: Request, w: Windows, verdict: Status, t0: int, t1: int, t2: int, fails: bool)
    requires verdict in {Approved, Rejected}
    ensures Extends(r, Decide(r, w, verdict, t0, t1, t2, fails), w)
  {
    ExpireExtends(r, w, t0);
    ExpireExtends(r, w, t2);
    assert (r.log + [Decided(verdict, t1, t2)])[..|r.log|] == r.log;
  }

  lemma ApplyExtends(r: Request, w: Windows, e: Event)
    ensures Extends(r, Apply(r, w, e), w)
  {
    match e
    case Sweep(now) => SweepExtends(r, w, now);
    case ExpireOnDemand(now) => ExpireExtends(r, w, now);
    case Approve(t0, t1, t2, fails) => DecideExtends(r, w, Approved, t0, t1, t2, fails);
    case Reject(t0, t1, t2) => DecideExtends(r, w, Rejected, t0, t1, t2, false);
    case SoftDelete =>
  }

  lemma GrownFollows(r: Request, u: Request, w: Windows)
    requires Consistent(r, w) && Extends(r, u, w) && u.log != r.log
    ensures forall i, j :: 0 <= i < j < |u.log| ==> Follows(u.log[i], u.log[j])
    ensures forall i :: 0 <= i < |r.log| ==> !IsDecision(u.log[i])
  {
    var n := |r.log|;
    LogGrows(r.log, u.log);
    forall i | 0 <= i < n ensures Follows(u.log[i], u.log[n]) && !IsDecision(u.log[i]) {
      assert u.log[i] == r.log[i] && r.log[i] in r.log;
    }
  }

  lemma GrownStamps(r: Request, u: Request, w: Windows)
    requires Consistent(r, w) && Extends(r, u, w) && u.log != r.log
    ensures forall i :: 0 <= i < |u.log| && u.log[i].ReminderSent? ==> u.reminderSentAt == Some(u.log[i].at)
    ensures forall i :: 0 <= i < |u.log| && u.log[i].EscalationSent? ==> u.escalatedAt == Some(u.log[i].at)
    ensures u.escalatedAt.Some? ==> u.reminderSentAt.Some?
  {
    LogGrows(r.log, u.log);
  }

  lemma ExtendsConsistent(r: Request, u: Request, w: Windows)
    requires Consistent(r, w) && Extends(r, u, w) && Deadline(u, w) == Deadline(r, w)
    ensures Consistent(u, w)
  {
    if u.log != r.log {
      LogGrows(r.log, u.log);
      GrownFollows(r, u, w);
      GrownStamps(r, u, w);
    }
  }

  lemma LogGrows(before: seq<Note>, after: seq<Note>)
    requires after != [] && after[..|after| - 1] == before
    ensures |after| == |before| + 1
    ensures forall i :: 0 <= i < |before| ==> after[i] == before[i] && before[i] in before
    ensures forall n :: n in after ==> n in before || n == after[|before|]
  {
    assert after == before + [after[|before|]];
  }

  lemma {:induction false} RunConsistent(r: Request, w: Windows, events: seq<Event>)
    requires Consistent(r, w)
    ensures Consistent(Run(r, w, events), w)
    ensures Deadline(Run(r, w, events), w) == Deadline(r, w)
    ensures r.expiresAt.Some? ==> Run(r, w, events).expiresAt == r.expiresAt
    ensures r.status != Pending ==> Run(r, w, events).(deleted := r.deleted) == r
  {
    if events != [] {
      var before, e := Run(r, w, events[..|events| - 1]), events[|events| - 1];
      RunConsistent(r, w, events[..|events| - 1]);
      ApplyKeepsDeadline(before, w, e);
      ApplyExtends(before, w, e);
      ExtendsConsistent(before, Run(r, w, events), w);
    }
  }

  // ------------------------------------------------------------ main results

  /** A consistent request records one final note, the one its status tells. */
  lemma ConsistentOutcome(u: Request, w: Windows)
    requires Consistent(u, w)
    ensures u.status in {Approved, Rejected} <==>
      exists i :: 0 <= i < |u.log| && u.log[i].Decided? && u.log[i].status == u.status && u.log[i].checkedAt < Deadline(u, w)
    ensures u.status == Expired <==> exists i :: 0 <= i < |u.log| && u.log[i].ExpirySent? && u.log[i].at >= Deadline(u, w)
    ensures forall i, j :: 0 <= i < |u.log| && 0 <= j < |u.log| && IsDecision(u.log[i]) && IsDecision(u.log[j]) ==> i == j
  {
    if u.status != Pending {
      assert FinalNoteFits(u, w, u.log[|u.log| - 1]);
    } else {
      assert forall i :: 0 <= i < |u.log| ==> u.log[i] in u.log;
    }
  }

  /** For every interleaving of a fresh request, and for any clock readings:
      it is decided strictly before its deadline or expired at or after it,
      that outcome is the only one ever recorded, and its deadline never moved. */
  lemma OutcomeRespectsDeadline(r: Request, w: Windows, events: seq<Event>)
    requires Fresh(r)
    ensures var u := Run(r, w, events);
      && Deadline(u, w) == Deadline(r, w)
      && (u.status in {Approved, Rejected} <==>
            exists i :: 0 <= i < |u.log| && u.log[i].Decided? && u.log[i].status == u.status && u.log[i].checkedAt < Deadline(r, w))
      && (u.status == Expired <==> exists i :: 0 <= i < |u.log| && u.log[i].ExpirySent? && u.log[i].at >= Deadline(r, w))
      && (forall i, j :: 0 <= i < |u.log| && 0 <= j < |u.log| && IsDecision(u.log[i]) && IsDecision(u.log[j]) ==> i == j)
  {
    RunConsistent(r, w, events);
    ConsistentOutcome(Run(r, w, events), w);
  }

  /** At most one reminder and one escalation are ever sent, and no reminder
      follows an escalation. */
  lemma NoticesAtMostOnce(r: Request, w: Windows, events: seq<Event>, i: nat, j: nat)
    requires Fresh(r) && i < j < |Run(r, w, events).log|
    ensures var log := Run(r, w, events).log;
      && !(log[i].ReminderSent? && log[j].ReminderSent?)
      && !(log[i].EscalationSent? && log[j].EscalationSent?)
      && !(log[i].EscalationSent? && log[j].ReminderSent?)
      && !(IsDecision(log[i]))
  {
    RunConsistent(r, w, events);
    assert Follows(Run(r, w, events).log[i], Run(r, w, events).log[j]);
  }

  /** The stamped review time of an approval can lie after the deadline: only
      the check is made before it. */
  lemma ApprovalStampMayBeLate() returns (r: Request, w: Windows, e: Event)
    ensures Fresh(r) && e.Approve? && e.t0 <= e.t1 <= e.t2
    ensures var u := Apply(r, w, e); u.status == Approved && u.reviewedAt.value >= Deadline(u, w)
  {
    w := Windows(30, 10, 20);
    r := Request(Pending, 0, Some(30), None, None, None, false, []);
    e := Approve(28, 29, 31, false);
  }

  predicate StampedLate(r: Request, w: Windows) {
    r.status in {Approved, Rejected} && r.reviewedAt.Some? && r.reviewedAt.value >= Deadline(r, w)
  }

  /** A decision that finds its request pending and in time at both checks, and reads the
      clock for the stamp at or after the deadline. */
  predicate DecidesLate(r: Request, w: Windows, e: Event) {
    && r.status == Pending
    && ((e.Approve? && !e.fails) || e.Reject?)
    && e.t0 < Deadline(r, w) && e.t1 < Deadline(r, w) <= e.t2
  }

  lemma StepStampsLateExactly(r: Request, w: Windows, e: Event)
    ensures StampedLate(Apply(r, w, e), w) <==> StampedLate(r, w) || DecidesLate(r, w, e)
  {
    ApplyKeepsDeadline(r, w, e);
  }

  predicate LateAt(r: Request, w: Windows, events: seq<Event>, i: nat) {
    i < |events| && DecidesLate(Run(r, w, events[..i]), w, events[i])
  }

  ghost predicate SomeLate(r: Request, w: Windows, events: seq<Event>) {
    exists i :: LateAt(r, w, events, i)
  }

  lemma LateAtPrefix(r: Request, w: Windows, events: seq<Event>, n: nat, i: nat)
    requires i < n <= |events|
    ensures LateAt(r, w, events[..n], i) <==> LateAt(r, w, events, i)
  {
    assert events[..n][..i] == events[..i] && events[..n][i] == events[i];
  }

  lemma SomeLateGrows(r: Request, w: Windows, before: seq<Event>, e: Event)
    ensures SomeLate(r, w, before + [e]) <==> SomeLate(r, w, before) || DecidesLate(Run(r, w, before), w, e)
  {
    var events, n := before + [e], |before|;
    assert events[..n] == before && events[n] == e;
    forall i: nat | i < n ensures LateAt(r, w, before, i) <==> LateAt(r, w, events, i) {
      LateAtPrefix(r, w, events, n, i);
    }
    assert LateAt(r, w, events, n) <==> DecidesLate(Run(r, w, before), w, e);
  }

  /** Over all runs a review is stamped at or after the deadline exactly when one of the
      steps was such a decision. */
  lemma {:induction false} LateStampsExactly(r: Request, w: Windows, events: seq<Event>)
    requires Fresh(r)
    ensures StampedLate(Run(r, w, events), w) <==> SomeLate(r, w, events)
    decreases |events|
  {
    if events != [] {
      var before, e := events[..|events| - 1], events[|events| - 1];
      LateStampsExactly(r, w, before);
      StepStampsLateExactly(Run(r, w, before), w, e);
      SomeLateGrows(r, w, before, e);
      assert events == before + [e];
    }
  }

  /** A recorded decision is the last note, so it is what status and stamp tell. */
  lemma DecisionIsLast(u: Request, w: Windows, i: nat)
    requires Consistent(u, w) && i < |u.log| && u.log[i].Decided?
    ensures i == |u.log| - 1 && FinalNoteFits(u, w, u.log[i])
  {
    assert u.log[i] in u.log;
    assert FinalNoteFits(u, w, u.log[|u.log| - 1]);
  }

  /** Even so, every recorded decision was checked before the deadline. */
  lemma DecisionsAreCheckedInTime(r: Request, w: Windows, events: seq<Event>, i: nat)
    requires Fresh(r) && i < |Run(r, w, events).log| && Run(r, w, events).log[i].Decided?
    ensures var u := Run(r, w, events);
      && u.log[i].checkedAt < Deadline(r, w)
      && u.status == u.log[i].status && u.reviewedAt == Some(u.log[i].stampedAt)
  {
    RunConsistent(r, w, events);
    DecisionIsLast(Run(r, w, events), w, i);
  }

  // ------------------------------------------------------- configured windows

  lemma {:induction false} ScaleKeepsOrder(a: int, b: int, unit: int)
    requires unit > 0
    ensures a < b <==> a * unit < b * unit
    decreases unit
  {
    if unit > 1 {
      ScaleKeepsOrder(a, b, unit - 1);
      assert a * unit == a * (unit - 1) + a && b * unit == b * (unit - 1) + b;
    }
  }

  /** Whatever the settings say, reminder and escalation fall due no later than expiry,
      and no window is empty. */
  lemma WindowsEndByTimeout(expiry: Option<int>, reminder: Option<int>, escalation: Option<int>, unit: int)
    requires unit > 0
    ensures var w := FromEnvironment(expiry, reminder, escalation, unit);
      unit <= w.reminder <= w.timeout && unit <= w.escalation <= w.timeout
  {
    var timeout := AtLeastOne(expiry, 30);
    forall raw: int | 1 <= raw ensures unit <= Min(raw, timeout) * unit <= timeout * unit {
      ScaleKeepsOrder(Min(raw, timeout), 1, unit);
      ScaleKeepsOrder(timeout, Min(raw, timeout), unit);
    }
  }

  predicate SendsReminder(r: Request, w: Windows, now: int) {
    SweepLocked(r, w, now).log == r.log + [ReminderSent(now)]
  }

  predicate SendsEscalation(r: Request, w: Windows, now: int) {
    SweepLocked(r, w, now).log == r.log + [EscalationSent(now)]
  }

  /** The last moment of the decision window: the stamped expiry, or with none the
      creation and the timeout. */
  predicate InTime(r: Request, w: Windows, now: int) {
    now < if r.expiresAt.Some? then r.expiresAt.value else r.createdAt + w.timeout
  }

  lemma LastNote(log: seq<Note>, some: Note, other: Note)
    ensures log + [some] == log + [other] <==> some == other
    ensures log + [some] != log
  {
    assert (log + [some])[|log|] == some && (log + [other])[|log|] == other;
    assert |log + [some]| == |log| + 1;
  }

  /** A sweep over a live pending request, stamped and reminded or not: in time it sends
      an escalation exactly when the age has reached that window and none was sent, else
      a reminder exactly when the age has reached that one and none was sent, and nothing
      otherwise; at the deadline it expires the request and sends neither. */
  lemma SweepSendsExactly(r: Request, w: Windows, now: int)
    requires r.status == Pending && !r.deleted
    ensures var age := now - r.createdAt;
      var escalates := InTime(r, w, now) && age >= w.escalation && r.escalatedAt.None?;
      var reminds := InTime(r, w, now) && !escalates && age >= w.reminder && r.reminderSentAt.None?;
      && (SendsEscalation(r, w, now) <==> escalates)
      && (SendsReminder(r, w, now) <==> reminds)
      && (SweepLocked(r, w, now).log == r.log <==> InTime(r, w, now) && !escalates && !reminds)
  {
    LastNote(r.log, EscalationSent(now), ReminderSent(now));
    LastNote(r.log, ExpirySent(now), ReminderSent(now));
    LastNote(r.log, ExpirySent(now), EscalationSent(now));
  }

  /** The row after it: the expiry is stamped, the notice sent has its time, an escalation
      also stands for a reminder not sent, and an expired request keeps its notices. */
  lemma SweptRow(r: Request, w: Windows, now: int)
    requires r.status == Pending && !r.deleted
    ensures var u := SweepLocked(r, w, now);
      && u.expiresAt == Some(if r.expiresAt.Some? then r.expiresAt.value else r.createdAt + w.timeout)
      && u.createdAt == r.createdAt && !u.deleted
      && u.status == (if InTime(r, w, now) then Pending else Expired)
      && u.reviewedAt == (if InTime(r, w, now) then r.reviewedAt else Some(now))
      && u.escalatedAt == (if SendsEscalation(r, w, now) then Some(now) else r.escalatedAt)
      && u.reminderSentAt ==
           (if SendsReminder(r, w, now) || (SendsEscalation(r, w, now) && r.reminderSentAt.None?) then Some(now) else r.reminderSentAt)
      && (!InTime(r, w, now) ==> u.log == r.log + [ExpirySent(now)])
  {
    SweepSendsExactly(r, w, now);
  }

  /** On demand a request expires exactly when it is pending and out of time, deleted or
      not; otherwise nothing changes. */
  lemma ExpiresOnDemandExactly(r: Request, w: Windows, now: int)
    ensures var u := Apply(r, w, ExpireOnDemand(now));
      if r.status == Pending && !InTime(r, w, now) then
        && u.status == Expired && u.reviewedAt == Some(now) && u.log == r.log + [ExpirySent(now)]
        && u.expiresAt == Some(if r.expiresAt.Some? then r.expiresAt.value else r.createdAt + w.timeout)
        && u.(status := r.status, expiresAt := r.expiresAt, reviewedAt := r.reviewedAt, log := r.log) == r
      else u == r
  {
  }

  /** Decided and deleted requests are none of the sweep's business. */
  lemma SweepSkips(r: Request, w: Windows, now: int)
    requires r.status != Pending || r.deleted
    ensures SweepLocked(r, w, now) == r && OutcomeOf(r, w, now) == Untouched
  {
  }

  /** What the sweep counts is what it sent. */
  lemma OutcomeIsWhatWasSent(r: Request, w: Windows, now: int)
    requires r.status == Pending && !r.deleted
    ensures OutcomeOf(r, w, now) == EscalatedNow <==> SendsEscalation(r, w, now)
    ensures OutcomeOf(r, w, now) == Reminded <==> SendsReminder(r, w, now)
    ensures OutcomeOf(r, w, now) == ExpiredNow <==> !InTime(r, w, now)
  {
    SweepSendsExactly(r, w, now);
    SweptRow(r, w, now);
  }

  lemma {:induction false} EscalatedStays(r: Request, w: Windows, events: seq<Event>)
    requires r.escalatedAt.Some?
    ensures Run(r, w, events).escalatedAt == r.escalatedAt
  {
    if events != [] {
      EscalatedStays(r, w, events[..|events| - 1]);
    }
  }

  lemma {:induction false} RunSplits(r: Request, w: Windows, first: seq<Event>, later: seq<Event>)
    ensures Run(r, w, first + later) == Run(Run(r, w, first), w, later)
  {
    if later == [] {
      assert first + later == first;
    } else {
      var n := |later| - 1;
      RunSplits(r, w, first, later[..n]);
      assert (first + later)[..|first + later| - 1] == first + later[..n];
    }
  }

  /** In any run, one sweep in time at the age of escalation, of a request still pending
      and live, leaves it escalated for good. */
  lemma DueSweepEscalates(r: Request, w: Windows, before: seq<Event>, now: int, after: seq<Event>)
    requires var u := Run(r, w, before);
      u.status == Pending && !u.deleted && InTime(u, w, now) && now - u.createdAt >= w.escalation
    ensures var end := Run(r, w, before + [Sweep(now)] + after);
      end.escalatedAt == if Run(r, w, before).escalatedAt.Some? then Run(r, w, before).escalatedAt else Some(now)
  {
    var u := Run(r, w, before);
    RunSplits(r, w, before, [Sweep(now)]);
    RunSplits(r, w, before + [Sweep(now)], after);
    assert [Sweep(now)][..0] == [] && Run(u, w, [Sweep(now)]) == SweepLocked(u, w, now);
    SweepSendsExactly(u, w, now);
    SweptRow(u, w, now);
    EscalatedStays(SweepLocked(u, w, now), w, after);
  }

  /** A decision on a pending request: out of time at either check it expires, with the
      clock reading that found out; in time it is recorded with verdict and stamp, unless
      the work fails, which leaves everything as it was. */
  lemma DecisionRow(r: Request, w: Windows, verdict: Status, t0: int, t1: int, t2: int, fails: bool)
    requires r.status == Pending && verdict in {Approved, Rejected}
    requires t0 <= t1 <= t2
    ensures var e := if verdict == Approved then Approve(t0, t1, t2, fails) else Reject(t0, t1, t2);
      var u := Apply(r, w, e); var rolledBack := fails && verdict == Approved;
      && u.createdAt == r.createdAt && u.deleted == r.deleted
      && u.reminderSentAt == r.reminderSentAt && u.escalatedAt == r.escalatedAt
      && (InTime(r, w, t1) && !rolledBack ==>
            u.status == verdict && u.reviewedAt == Some(t2) && u.expiresAt == r.expiresAt && u.log == r.log + [Decided(verdict, t1, t2)])
      && (InTime(r, w, t1) && rolledBack ==> u == r)
      && (!InTime(r, w, t1) ==>
            var found := if InTime(r, w, t0) then t2 else t0;
            && u.status == Expired && u.reviewedAt == Some(found) && u.log == r.log + [ExpirySent(found)]
            && u.expiresAt == Some(if r.expiresAt.Some? then r.expiresAt.value else r.createdAt + w.timeout))
  {
  }

  /** Without settings a request is reminded of after 10 minutes, escalated after 20 and
      expires after 30; settings count as given, but no less than one minute and, for the
      notices, no more than the expiry. */
  lemma WindowsAsSet(expiry: Option<int>, reminder: Option<int>, escalation: Option<int>, unit: int)
    ensures FromEnvironment(None, None, None, unit) == Windows(30 * unit, 10 * unit, 20 * unit)
    ensures expiry.Some? && reminder.Some? && escalation.Some? && 1 <= reminder.value <= expiry.value && 1 <= escalation.value <= expiry.value ==>
      FromEnvironment(expiry, reminder, escalation, unit) == Windows(expiry.value * unit, reminder.value * unit, escalation.value * unit)
    ensures expiry.Some? && expiry.value < 1 ==>
      FromEnvironment(expiry, reminder, escalation, unit) == Windows(unit, unit, unit)
  {
  }

  lemma NoticeWindows(r: Request, w: Windows)
    requires Fresh(r) && !r.deleted && r.expiresAt.None?
    ensures (exists now :: SendsEscalation(r, w, now)) <==> w.escalation < w.timeout
    ensures (exists now :: SendsReminder(r, w, now)) <==> w.reminder < w.timeout && w.reminder < w.escalation
  {
    forall now
      ensures SendsEscalation(r, w, now) <==> w.escalation <= now - r.createdAt < w.timeout
      ensures SendsReminder(r, w, now) <==> w.reminder <= now - r.createdAt < w.timeout && now - r.createdAt < w.escalation
    {
      SweepSendsExactly(r, w, now);
    }
    assert w.escalation < w.timeout ==> SendsEscalation(r, w, r.createdAt + w.escalation);
    assert w.reminder < w.timeout && w.reminder < w.escalation ==> SendsReminder(r, w, r.createdAt + w.reminder);
  }

  /** A window cut down to the timeout is never acted on: some sweep can escalate a new
      request exactly when its setting is below the expiry's, and can send a reminder of
      its own exactly when that setting is below both others. */
  lemma NoticesSendableExactly(r: Request, expiry: Option<int>, reminder: Option<int>, escalation: Option<int>, unit: int)
    requires unit > 0 && Fresh(r) && !r.deleted && r.expiresAt.None?
    ensures var w := FromEnvironment(expiry, reminder, escalation, unit);
      var (last, first, next) := (AtLeastOne(expiry, 30), AtLeastOne(reminder, 10), AtLeastOne(escalation, 20));
      && ((exists now :: SendsEscalation(r, w, now)) <==> next < last)
      && ((exists now :: SendsReminder(r, w, now)) <==> first < last && first < next)
  {
    var (last, first, next) := (AtLeastOne(expiry, 30), AtLeastOne(reminder, 10), AtLeastOne(escalation, 20));
    NoticeWindows(r, FromEnvironment(expiry, reminder, escalation, unit));
    ScaleKeepsOrder(Min(next, last), last, unit);
    ScaleKeepsOrder(Min(first, last), last, unit);
    ScaleKeepsOrder(Min(first, last), Min(next, last), unit);
  }

  // ------------------------------------------------------------ whole sweeps

  type Table = map<nat, Request>

  /** Committed transactions of all requests, in commit order. */
  ghost function TableRun(table: Table, w: Windows, steps: seq<(nat, Event)>): Table {
    if steps == [] then table
    else
      var before := TableRun(table, w, steps[..|steps| - 1]);
      var (id, e) := steps[|steps| - 1];
      if id in before then before[id := Apply(before[id], w, e)] else before
  }

  predicate StillDue(r: Request, w: Windows, t: int) {
    r.status == Pending && !r.deleted && Deadline(r, w) <= t
  }

  lemma {:induction false} TableKeepsIds(table: Table, w: Windows, steps: seq<(nat, Event)>)
    ensures TableRun(table, w, steps).Keys == table.Keys
  {
    if steps != [] {
      TableKeepsIds(table, w, steps[..|steps| - 1]);
    }
  }

  lemma StepSettles(r: Request, w: Windows, e: Event, t: int)
    requires !StillDue(r, w, t) || e == Sweep(t)
    ensures !StillDue(Apply(r, w, e), w, t)
  {
    ApplyKeepsDeadline(r, w, e);
  }

  /** Once settled with respect to `t` (decided, deleted, or due later), always so. */
  lemma {:induction false} SettledStays(table: Table, w: Windows, steps: seq<(nat, Event)>, id: nat, t: int)
    requires id in table && (!StillDue(table[id], w, t) || (id, Sweep(t)) in steps)
    ensures id in TableRun(table, w, steps) && !StillDue(TableRun(table, w, steps)[id], w, t)
  {
    TableKeepsIds(table, w, steps);
    if steps != [] {
      var n := |steps| - 1;
      var before := TableRun(table, w, steps[..n]);
      TableKeepsIds(table, w, steps[..n]);
      if !StillDue(table[id], w, t) || (id, Sweep(t)) in steps[..n] {
        SettledStays(table, w, steps[..n], id, t);
      }
      if steps[n].0 == id {
        StepSettles(before[id], w, steps[n].1, t);
      }
    }
  }

  /** A sweep queries the pending requests and then locks each in turn, with any
      other transactions (further sweeps included) in between. When it is done,
      no request at all is pending with a deadline at or before its clock. */
  lemma SweepLeavesNoneDue(table: Table, w: Windows, during: seq<(nat, Event)>, t: int, id: nat)
    requires forall k :: k in table && table[k].status == Pending && !table[k].deleted ==> (k, Sweep(t)) in during
    requires id in TableRun(table, w, during)
    ensures !StillDue(TableRun(table, w, during)[id], w, t)
  {
    TableKeepsIds(table, w, during);
    SettledStays(table, w, during, id, t);
  }

  // --------------------------------------------------------------- the row

  datatype Outcome = Reminded | EscalatedNow | ExpiredNow | Untouched

  function OutcomeOf(r: Request, w: Windows, now: int): Outcome {
    if r.status != Pending || r.deleted then Untouched
    else
      var u := SweepLocked(r, w, now);
      if u.status == Expired then ExpiredNow
      else if |u.log| == |r.log| then Untouched
      else if u.log[|r.log|].EscalationSent? then EscalatedNow
      else Reminded
  }

  function CountOf(outcomes: seq<Outcome>, o: Outcome): nat {
    if outcomes == [] then 0 else CountOf(outcomes[..|outcomes| - 1], o) + if outcomes[|outcomes| - 1] == o then 1 else 0
  }

  class RetripRow {
    var status: Status
    const createdAt: int
    var expiresAt: Option<int>
    var reminderSentAt: Option<int>
    var escalatedAt: Option<int>
    var reviewedAt: Option<int>
    var deleted: bool
    var log: seq<Note>

    function State(): Request
      reads this
    {
      Request(status, createdAt, expiresAt, reminderSentAt, escalatedAt, reviewedAt, deleted, log)
    }

    method DeadlineFor(w: Windows) returns (deadline: int)
      ensures deadline == Deadline(State(), w)
    {
      if expiresAt.Some? {
        return expiresAt.value;
      }
      return createdAt + w.timeout;
    }

    method ExpireIfDue(w: Windows, now: int) returns (expired: bool)
      modifies this
      ensures State() == ExpireLocked(old(State()), w, now)
      ensures expired == ExpiryDue(old(State()), w, now)
    {
      var deadline := DeadlineFor(w);
      if status != Pending || now < deadline {
        return false;
      }
      status := Expired;
      expiresAt := Some(deadline);
      reviewedAt := Some(now);
      log := log + [ExpirySent(now)];
      return true;
    }

    method SweepRow(w: Windows, now: int) returns (outcome: Outcome)
      modifies this
      ensures State() == SweepLocked(old(State()), w, now)
      ensures outcome == OutcomeOf(old(State()), w, now)
    {
      if status != Pending || deleted {
        return Untouched;
      }
      var deadline := DeadlineFor(w);
      if expiresAt.None? {
        expiresAt := Some(deadline);
      }
      var expired := ExpireIfDue(w, now);
      if expired {
        return ExpiredNow;
      }
      var age := now - createdAt;
      if age >= w.escalation && escalatedAt.None? {
        escalatedAt := Some(now);
        if reminderSentAt.None? {
          reminderSentAt := Some(now);
        }
        log := log + [EscalationSent(now)];
        return EscalatedNow;
      } else if age >= w.reminder && reminderSentAt.None? {
        reminderSentAt := Some(now);
        log := log + [ReminderSent(now)];
        return Reminded;
      }
      return Untouched;
    }

    /** Approve or reject; `done` is false for an expired, already decided or failed request. */
    method Review(w: Windows, verdict: Status, t0: int, t1: int, t2: int, fails: bool) returns (done: bool)
      modifies this
      ensures State() == Decide(old(State()), w, verdict, t0, t1, t2, fails)
      ensures done ==> old(status) == Pending && status == verdict && t1 < Deadline(State(), w)
    {
      var expired := ExpireIfDue(w, t0);
      if expired || status != Pending {
        return false;
      }
      var deadline := DeadlineFor(w);
      if t1 >= deadline {
        expired := ExpireIfDue(w, t2);
        return false;
      }
      if fails {
        return false;
      }
      status := verdict;
      reviewedAt := Some(t2);
      log := log + [Decided(verdict, t1, t2)];
      return true;
    }
  }

  datatype SweepResult = SweepResult(reminded: nat, escalated: nat, expired: nat)

  function Tally(outcomes: seq<Outcome>): SweepResult {
    SweepResult(CountOf(outcomes, Reminded), CountOf(outcomes, EscalatedNow), CountOf(outcomes, ExpiredNow))
  }

  lemma TallyGrows(outcomes: seq<Outcome>, outcome: Outcome)
    ensures Tally(outcomes + [outcome]) ==
      SweepResult(CountOf(outcomes, Reminded) + if outcome == Reminded then 1 else 0,
                  CountOf(outcomes, EscalatedNow) + if outcome == EscalatedNow then 1 else 0,
                  CountOf(outcomes, ExpiredNow) + if outcome == ExpiredNow then 1 else 0)
  {
    assert (outcomes + [outcome])[..|outcomes|] == outcomes;
  }

  /** A sweep with nothing in between: every row of the snapshot is processed
      once and the counters say what happened. */
  method ProcessRetripTimeouts(rows: seq<RetripRow>, w: Windows, now: int)
    returns (result: SweepResult, ghost outcomes: seq<Outcome>)
    requires forall i, j :: 0 <= i < j < |rows| ==> rows[i] != rows[j]
    modifies rows
    ensures forall i :: 0 <= i < |rows| ==> rows[i].State() == SweepLocked(old(rows[i].State()), w, now)
    ensures |outcomes| == |rows| && forall i :: 0 <= i < |rows| ==> outcomes[i] == OutcomeOf(old(rows[i].State()), w, now)
    ensures result == Tally(outcomes)
  {
    ghost var was, want, wantOutcome := Expected(rows, w, now);
    result, outcomes := SweepAll(rows, w, now, was, want, wantOutcome);
    assert forall k :: 0 <= k < |rows| ==> Foresees(was[k], w, now, want[k], wantOutcome[k]);
  }

  ghost predicate Foresees(was: Request, w: Windows, now: int, want: Request, outcome: Outcome) {
    want == SweepLocked(was, w, now) && outcome == OutcomeOf(was, w, now)
  }

  ghost predicate Foreseen(was: seq<Request>, w: Windows, now: int, want: seq<Request>, outcomes: seq<Outcome>) {
    && |was| == |want| == |outcomes|
    && forall k {:trigger Foresees(was[k], w, now, want[k], outcomes[k])} :: 0 <= k < |was| ==>
      Foresees(was[k], w, now, want[k], outcomes[k])
  }

  lemma Expected(rows: seq<RetripRow>, w: Windows, now: int)
    returns (was: seq<Request>, want: seq<Request>, outcomes: seq<Outcome>)
    ensures |was| == |rows| && Foreseen(was, w, now, want, outcomes)
    ensures forall k :: 0 <= k < |rows| ==> was[k] == rows[k].State()
  {
    was := seq(|rows|, k requires 0 <= k < |rows| reads rows => rows[k].State());
    want := seq(|rows|, k requires 0 <= k < |rows| && |was| == |rows| => SweepLocked(was[k], w, now));
    outcomes := seq(|rows|, k requires 0 <= k < |rows| && |was| == |rows| => OutcomeOf(was[k], w, now));
  }

  method SweepAt(row: RetripRow, i: nat, w: Windows, now: int, ghost was: seq<Request>,
                 ghost want: seq<Request>, ghost wantOutcome: seq<Outcome>)
    returns (outcome: Outcome)
    requires i < |was| && Foreseen(was, w, now, want, wantOutcome) && row.State() == was[i]
    modifies row
    ensures row.State() == want[i] && outcome == wantOutcome[i]
  {
    assert Foresees(was[i], w, now, want[i], wantOutcome[i]);
    outcome := row.SweepRow(w, now);
  }

  method SweepAll(rows: seq<RetripRow>, w: Windows, now: int, ghost was: seq<Request>, ghost want: seq<Request>,
                  ghost wantOutcome: seq<Outcome>)
    returns (result: SweepResult, ghost outcomes: seq<Outcome>)
    requires forall i, j :: 0 <= i < j < |rows| ==> rows[i] != rows[j]
    requires |was| == |rows| && Foreseen(was, w, now, want, wantOutcome)
    requires forall k :: 0 <= k < |rows| ==> rows[k].State() == was[k]
    modifies rows
    ensures forall k :: 0 <= k < |rows| ==> rows[k].State() == want[k]
    ensures outcomes == wantOutcome && result == Tally(outcomes)
  {
    result, outcomes := SweepResult(0, 0, 0), [];
    for i := 0 to |rows|
      invariant forall k :: 0 <= k < i ==> rows[k].State() == want[k]
      invariant forall k :: i <= k < |rows| ==> rows[k].State() == was[k]
      invariant outcomes == wantOutcome[..i]
      invariant result == Tally(outcomes)
    {
      var outcome := SweepAt(rows[i], i, w, now, was, want, wantOutcome);
      TallyGrows(outcomes, outcome);
      outcomes := outcomes + [outcome];
      result := SweepResult(result.reminded + if outcome == Reminded then 1 else 0,
                            result.escalated + if outcome == EscalatedNow then 1 else 0,
                            result.expired + if outcome == ExpiredNow then 1 else 0);
    }
  }
}
