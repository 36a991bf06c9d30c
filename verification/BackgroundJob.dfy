/** The claim protocol of a background job: worker, web process, crash and
    broker redelivery, each database access a step of its own. */
module BackgroundJob {
  import opened Wrappers

  datatype Status = Queued | Processing | Completed | Failed

  predicate Finished(s: Status) {
    s == Completed || s == Failed
  }

  /** Where one call of `run_job` stands. */
  datatype Pc =
    | AtClaim           // about to claim the job
    | AtGiveUp          // the claim found no queued job
    | AtBody            // claimed, body not started
    | InBody            // body running
    | AtSave(ok: bool)  // body over, outcome not written
    | Returned
    | Crashed

  /** Calls are numbered in order of arrival; a redelivery is a new call. */
  datatype State = State(status: Status, calls: seq<Pc>, bodyStarts: nat, completedBy: seq<nat>)

  datatype Event =
    | Arrive              // worker picks up the message, or a waiting web process stops waiting
    | Claim(p: nat)
    | GiveUp(p: nat)
    | StartBody(p: nat)
    | EndBody(p: nat, ok: bool)
    | Save(p: nat)
    | Crash(p: nat)

  predicate At(s: State, p: nat, pc: Pc) {
    p < |s.calls| && s.calls[p] == pc
  }

  predicate Enabled(s: State, e: Event) {
    match e
    case Arrive => true
    case Claim(p) => At(s, p, AtClaim)
    case GiveUp(p) => At(s, p, AtGiveUp)
    case StartBody(p) => At(s, p, AtBody)
    case EndBody(p, _) => At(s, p, InBody)
    case Save(p) => p < |s.calls| && s.calls[p].AtSave?
    case Crash(p) => p < |s.calls| && s.calls[p] != Returned
  }

  function Apply(s: State, e: Event): State
    requires Enabled(s, e)
  {
    match e
    case Arrive => s.(calls := s.calls + [AtClaim])
    case Claim(p) =>
      if s.status == Queued then s.(status := Processing, calls := s.calls[p := AtBody])
      else s.(calls := s.calls[p := AtGiveUp])
    case GiveUp(p) =>
      s.(status := if s.status == Processing then Failed else s.status, calls := s.calls[p := Returned])
    case StartBody(p) => s.(calls := s.calls[p := InBody], bodyStarts := s.bodyStarts + 1)
    case EndBody(p, ok) => s.(calls := s.calls[p := AtSave(ok)])
    case Save(p) =>
      if s.calls[p].ok then s.(status := Completed, calls := s.calls[p := Returned], completedBy := s.completedBy + [p])
      else s.(status := Failed, calls := s.calls[p := Returned])
    case Crash(p) => s.(calls := s.calls[p := Crashed])
  }

  const CREATED := State(Queued, [], 0, [])

  /** A run: every event is enabled when it happens. */
  ghost predicate IsRun(from: State, events: seq<Event>)
    decreases events
  {
    events == [] || (Enabled(from, events[0]) && IsRun(Apply(from, events[0]), events[1..]))
  }

  ghost function After(from: State, events: seq<Event>): State
    requires IsRun(from, events)
    decreases events
  {
    if events == [] then from else After(Apply(from, events[0]), events[1..])
  }

  // --------------------------------------------------------------- invariant

  predicate Holds(pc: Pc) {
    pc.AtBody? || pc.InBody? || pc.AtSave?
  }

  predicate CallFits(s: State, pc: Pc) {
    match pc
    case AtClaim => true
    case AtGiveUp => s.status != Queued
    case AtBody => (s.status == Processing || s.status == Failed) && s.bodyStarts == 0
    case Returned => Finished(s.status)
    case Crashed => true
    case _ => (s.status == Processing || s.status == Failed) && s.bodyStarts == 1
  }

  predicate JobFits(s: State) {
    && s.bodyStarts <= 1 && |s.completedBy| <= 1
    && (s.status == Queued ==> s.bodyStarts == 0)
    && (s.status == Completed <==> |s.completedBy| == 1)
    && (s.status == Completed ==> s.bodyStarts == 1)
  }

  predicate OneHolder(calls: seq<Pc>) {
    forall p, q :: 0 <= p < |calls| && 0 <= q < |calls| && Holds(calls[p]) && Holds(calls[q]) ==> p == q
  }

  /** At most one call holds the job, and every call and the job itself are in
      step: a body was started by a holder only, and a returned call left the
      job finished. */
  predicate Inv(s: State) {
    OneHolder(s.calls) && JobFits(s) && forall p :: 0 <= p < |s.calls| ==> CallFits(s, s.calls[p])
  }

  lemma CallMoves(s: State, u: State, p: nat)
    requires Inv(s) && JobFits(u) && p < |s.calls| && |u.calls| == |s.calls| && CallFits(u, u.calls[p])
    requires Holds(u.calls[p]) ==> Holds(s.calls[p]) || forall q :: 0 <= q < |s.calls| ==> !Holds(s.calls[q])
    requires forall q :: 0 <= q < |s.calls| && q != p ==> u.calls[q] == s.calls[q]
    requires forall q :: 0 <= q < |s.calls| && q != p && CallFits(s, s.calls[q]) ==> CallFits(u, s.calls[q])
    ensures Inv(u)
  {
  }

  lemma ClaimKeepsInv(s: State, p: nat)
    requires Inv(s) && Enabled(s, Claim(p))
    ensures Inv(Apply(s, Claim(p)))
  {
    assert s.status == Queued ==> forall q :: 0 <= q < |s.calls| ==> CallFits(s, s.calls[q]) && !Holds(s.calls[q]);
    CallMoves(s, Apply(s, Claim(p)), p);
  }

  lemma SaveKeepsInv(s: State, p: nat)
    requires Inv(s) && Enabled(s, Save(p))
    ensures Inv(Apply(s, Save(p)))
  {
    assert CallFits(s, s.calls[p]);
    assert forall q :: 0 <= q < |s.calls| && q != p ==> !Holds(s.calls[q]);
    CallMoves(s, Apply(s, Save(p)), p);
  }

  lemma StartKeepsInv(s: State, p: nat)
    requires Inv(s) && Enabled(s, StartBody(p))
    ensures Inv(Apply(s, StartBody(p)))
  {
    assert CallFits(s, s.calls[p]);
    assert forall q :: 0 <= q < |s.calls| && q != p ==> !Holds(s.calls[q]);
    CallMoves(s, Apply(s, StartBody(p)), p);
  }

  lemma OtherKeepsInv(s: State, e: Event)
    requires Inv(s) && Enabled(s, e) && (e.GiveUp? || e.EndBody? || e.Crash?)
    ensures Inv(Apply(s, e))
  {
    assert CallFits(s, s.calls[e.p]);
    CallMoves(s, Apply(s, e), e.p);
  }

  lemma StepKeepsInv(s: State, e: Event)
    requires Inv(s) && Enabled(s, e)
    ensures Inv(Apply(s, e))
    ensures Finished(s.status) ==> Finished(Apply(s, e).status)
    ensures s.status == Completed ==> Apply(s, e).status == Completed && Apply(s, e).completedBy == s.completedBy
    ensures s.status != Queued ==> Apply(s, e).status != Queued
  {
    match e
    case Arrive => assert forall q :: 0 <= q < |s.calls| ==> CallFits(s, s.calls[q]);
    case Claim(p) => ClaimKeepsInv(s, p);
    case StartBody(p) => StartKeepsInv(s, p);
    case Save(p) => SaveKeepsInv(s, p); assert CallFits(s, s.calls[p]);
    case _ => OtherKeepsInv(s, e);
  }

  lemma {:induction false} RunKeepsInv(s: State, events: seq<Event>)
    requires Inv(s) && IsRun(s, events)
    ensures Inv(After(s, events))
    ensures Finished(s.status) ==> Finished(After(s, events).status)
    ensures s.status == Completed ==> After(s, events).status == Completed && After(s, events).completedBy == s.completedBy
    ensures s.status != Queued ==> After(s, events).status != Queued
    decreases events
  {
    if events != [] {
      StepKeepsInv(s, events[0]);
      RunKeepsInv(Apply(s, events[0]), events[1..]);
    }
  }

  // ------------------------------------------------------------ main results

  /** In every interleaving the body starts at most once, the job is completed
      at most once, by a call whose body ran, and a returned call leaves the
      job finished. */
  lemma BodyRunsAtMostOnce(events: seq<Event>)
    requires IsRun(CREATED, events)
    ensures var s := After(CREATED, events);
      && s.bodyStarts <= 1 && |s.completedBy| <= 1
      && (s.status == Completed <==> |s.completedBy| == 1)
      && (s.status == Completed ==> s.bodyStarts == 1)
      && ((exists p :: 0 <= p < |s.calls| && s.calls[p].Returned?) ==> Finished(s.status))
  {
    RunKeepsInv(CREATED, events);
  }

  /** A finished job never runs again, and a completed one stays completed,
      whatever calls arrive, crash or are redelivered afterwards. */
  lemma FinishedIsFinal(events: seq<Event>, more: seq<Event>)
    requires IsRun(CREATED, events) && IsRun(After(CREATED, events), more)
    ensures Finished(After(CREATED, events).status) ==> Finished(After(After(CREATED, events), more).status)
    ensures After(CREATED, events).status == Completed ==> After(After(CREATED, events), more).status == Completed
  {
    RunKeepsInv(CREATED, events);
    RunKeepsInv(After(CREATED, events), more);
  }

  /** A call that holds the job and can still end it well. */
  predicate CanSucceed(pc: Pc) {
    pc == AtBody || pc == InBody || pc == AtSave(true)
  }

  ghost predicate NoneCanSucceed(s: State) {
    forall p :: 0 <= p < |s.calls| ==> !CanSucceed(s.calls[p])
  }

  lemma {:induction false} FailureStands(s: State, events: seq<Event>)
    requires Inv(s) && s.status == Failed && NoneCanSucceed(s) && IsRun(s, events)
    ensures After(s, events).status == Failed
    decreases events
  {
    if events != [] {
      StepKeepsInv(s, events[0]);
      FailureStands(Apply(s, events[0]), events[1..]);
    }
  }

  lemma SavingOverturns(s: State, p: nat)
    requires Inv(s) && At(s, p, AtSave(true))
    ensures IsRun(s, [Save(p)] + []) && After(s, [Save(p)] + []).status == Completed
  {
    RunOf(s, Save(p), []);
  }

  lemma EndingOverturns(s: State, p: nat) returns (events: seq<Event>)
    requires Inv(s) && At(s, p, InBody)
    ensures IsRun(s, events) && After(s, events).status == Completed
  {
    var ended := Apply(s, EndBody(p, true));
    StepKeepsInv(s, EndBody(p, true));
    SavingOverturns(ended, p);
    RunOf(s, EndBody(p, true), [Save(p)] + []);
    events := [EndBody(p, true)] + ([Save(p)] + []);
  }

  lemma StartingOverturns(s: State, p: nat) returns (events: seq<Event>)
    requires Inv(s) && At(s, p, AtBody)
    ensures IsRun(s, events) && After(s, events).status == Completed
  {
    StepKeepsInv(s, StartBody(p));
    var rest := EndingOverturns(Apply(s, StartBody(p)), p);
    RunOf(s, StartBody(p), rest);
    events := [StartBody(p)] + rest;
  }

  lemma HolderOverturns(s: State, p: nat) returns (events: seq<Event>)
    requires Inv(s) && p < |s.calls| && CanSucceed(s.calls[p])
    ensures IsRun(s, events) && After(s, events).status == Completed
  {
    if s.calls[p] == AtBody {
      events := StartingOverturns(s, p);
    } else if s.calls[p] == InBody {
      events := EndingOverturns(s, p);
    } else {
      SavingOverturns(s, p);
      events := [Save(p)] + [];
    }
  }

  /** A failed job stays failed in every run exactly when no call stands before, in, or
      past a successful body. */
  lemma FailureStandsExactly(s: State)
    requires Inv(s) && s.status == Failed
    ensures (forall events :: IsRun(s, events) ==> After(s, events).status == Failed) <==> NoneCanSucceed(s)
  {
    if NoneCanSucceed(s) {
      forall events | IsRun(s, events) ensures After(s, events).status == Failed {
        FailureStands(s, events);
      }
    } else {
      var p :| 0 <= p < |s.calls| && CanSucceed(s.calls[p]);
      var events := HolderOverturns(s, p);
    }
  }

  /** The race behind it: a second call finds the first one still working, writes
      FAILED, and the first one then completes the job. */
  lemma FailedIsNotFinal() returns (events: seq<Event>, more: seq<Event>)
    ensures IsRun(CREATED, events) && After(CREATED, events).status == Failed
    ensures IsRun(After(CREATED, events), more) && After(After(CREATED, events), more).status == Completed
  {
    var late := [Arrive] + ([Claim(1)] + ([GiveUp(1)] + []));
    events := [Arrive] + ([Claim(0)] + ([StartBody(0)] + late));
    more := [EndBody(0, true)] + ([Save(0)] + []);
    var queued := Apply(CREATED, Arrive);
    var claimed := Apply(queued, Claim(0));
    var running := Apply(claimed, StartBody(0));
    var failed := SecondCallFails(running);
    RunOf(claimed, StartBody(0), late);
    RunOf(queued, Claim(0), [StartBody(0)] + late);
    RunOf(CREATED, Arrive, [Claim(0)] + ([StartBody(0)] + late));
    RunOf(Apply(failed, EndBody(0, true)), Save(0), []);
    RunOf(failed, EndBody(0, true), [Save(0)] + []);
  }

  lemma SecondCallFails(running: State) returns (failed: State)
    requires running.status == Processing && |running.calls| == 1 && running.calls[0] == InBody
    ensures var late := [Arrive] + ([Claim(1)] + ([GiveUp(1)] + []));
      IsRun(running, late) && After(running, late) == failed
    ensures failed.status == Failed && At(failed, 0, InBody)
  {
    var arrived := Apply(running, Arrive);
    var lost := Apply(arrived, Claim(1));
    failed := Apply(lost, GiveUp(1));
    RunOf(lost, GiveUp(1), []);
    RunOf(arrived, Claim(1), [GiveUp(1)] + []);
    RunOf(running, Arrive, [Claim(1)] + ([GiveUp(1)] + []));
  }

  lemma RunOf(s: State, e: Event, rest: seq<Event>)
    requires Enabled(s, e) && IsRun(Apply(s, e), rest)
    ensures IsRun(s, [e] + rest) && After(s, [e] + rest) == After(Apply(s, e), rest)
  {
    assert ([e] + rest)[1..] == rest;
  }

  // ------------------------------------------------------------- one call alone

  /** The protocol of one call with nothing in between, from a job that no call has
      touched or one that an earlier call left: a queued job is run and ends as its body
      does, a running one is failed, and a finished one is left as it was. */
  lemma CallAlone(status: Status, ok: bool) returns (events: seq<Event>)
    ensures var s := State(status, [], 0, []);
      && IsRun(s, events) && After(s, events).calls == [Returned]
      && After(s, events).status ==
           (if status == Queued then if ok then Completed else Failed else if status == Processing then Failed else status)
      && After(s, events).bodyStarts == if status == Queued then 1 else 0
  {
    var s := State(status, [], 0, []);
    var arrived := Apply(s, Arrive);
    assert arrived.calls == [AtClaim];
    var claimed := Apply(arrived, Claim(0));
    if status == Queued {
      assert claimed.calls == [AtBody];
      var rest := BodyAlone(claimed, ok);
      RunOf(arrived, Claim(0), rest);
      RunOf(s, Arrive, [Claim(0)] + rest);
      events := [Arrive] + ([Claim(0)] + rest);
    } else {
      assert claimed.calls == [AtGiveUp];
      RunOf(claimed, GiveUp(0), []);
      RunOf(arrived, Claim(0), [GiveUp(0)] + []);
      RunOf(s, Arrive, [Claim(0)] + ([GiveUp(0)] + []));
      events := [Arrive] + ([Claim(0)] + ([GiveUp(0)] + []));
    }
  }

  lemma BodyAlone(claimed: State, ok: bool) returns (events: seq<Event>)
    requires claimed == State(Processing, [AtBody], 0, [])
    ensures IsRun(claimed, events) && After(claimed, events).calls == [Returned]
    ensures After(claimed, events).status == (if ok then Completed else Failed) && After(claimed, events).bodyStarts == 1
  {
    var running := Apply(claimed, StartBody(0));
    var ended := Apply(running, EndBody(0, ok));
    assert running.calls == [InBody] && ended.calls == [AtSave(ok)];
    RunOf(ended, Save(0), []);
    RunOf(running, EndBody(0, ok), [Save(0)] + []);
    RunOf(claimed, StartBody(0), [EndBody(0, ok)] + ([Save(0)] + []));
    events := [StartBody(0)] + ([EndBody(0, ok)] + ([Save(0)] + []));
  }

  /** What running the job's body yields: success, a job error, or a crash of
      the body that is caught and logged. */
  datatype BodyResult = Success(payload: string) | JobError(message: string) | Unexpected

  const INTERRUPTED := "The job was interrupted. Check the data before trying again."
  const SOMETHING_WRONG := "Something went wrong. Please try again."

  class JobRow {
    var status: Status
    var result: Option<string>
    var errorMessage: Option<string>
    var uploadContent: Option<string>
    var finishedAt: Option<int>

    /** `run_job` with nothing in between: a queued job is run and its outcome
        saved, a running one is declared interrupted, a finished one is left. */
    method RunJob(body: BodyResult, now: int) returns (ran: bool)
      modifies this
      ensures ran == (old(status) == Queued) && Finished(status)
      ensures old(Finished(status)) ==> unchanged(this)
      ensures old(status) == Processing ==>
        && status == Failed && errorMessage == Some(INTERRUPTED) && finishedAt == Some(now)
        && result == old(result) && uploadContent == old(uploadContent)
      ensures ran ==> (status == Completed <==> body.Success?) && uploadContent == None && finishedAt == Some(now)
      ensures ran ==> match body
        case Success(payload) => result == Some(payload) && errorMessage == old(errorMessage)
        case JobError(message) => result == old(result) && errorMessage == Some(message)
        case Unexpected => result == old(result) && errorMessage == Some(SOMETHING_WRONG)
    {
      if status != Queued {
        if status == Processing {
          status, errorMessage, finishedAt := Failed, Some(INTERRUPTED), Some(now);
        }
        return false;
      }
      status := Processing;
      match body {
        case Success(payload) =>
          result, status := Some(payload), Completed;
        case JobError(message) =>
          status, errorMessage := Failed, Some(message);
        case Unexpected =>
          status, errorMessage := Failed, Some(SOMETHING_WRONG);
      }
      uploadContent := None;
      finishedAt := Some(now);
      return true;
    }
  }
}
