# Verified model of the waste-collection rules engine

A Dafny 4.11 model of the operational rules behind a municipal waste-collection
backend, with proofs. Tables become maps or sequences of rows, a locked transaction
becomes one step, a write judged by an earlier unlocked read carries what was read, and
time is an integer. `dafny verify dfyconfig.toml` checks everything.

| file | what it models |
|---|---|
| StaffHierarchy | which row decides a role's head in an area, and the reporting-cycle check on saving |
| BusinessTime | deadlines counted in working minutes |
| EscalationLevels, Escalation | the escalation chain of a ticket, and the ticket's clock over whole runs |
| RetripDecision | reminder, escalation, expiry, approval and rejection of a Re-Trip request |
| RetripCarryOver | the stops that move to a continuation trip |
| BackgroundJob | the claim protocol of a background job |
| GraphWalk, CascadeDelete | the cascading soft delete and the cache scopes it invalidates |
| PermissionSnapshot | grant keys, snapshots, and the audit rows written by comparing them |
| ServiceNotice | no-collection notices against generation, driving and Re-Trips |
| LoginSession | session checks through a short-lived cache, logouts and the idle sweep |
| WasteBreakdown | weight per waste type, with the fallback on configured types |
| GeoNormalize | normalization of a record's flat geography |
| StatusDurations | time a ticket spent in each status |
| WasteImages | single and batched lookup of capture photos |

Each operation that the program performs step by step is a method with its loops or a
class with its fields, proved against a specification function or predicate; the laws are
lemmas about those. What such a function means is said again on row fields and the call's
arguments, by lemmas that do not name it. Where a protocol interleaves, its steps are an
event type and the laws hold over all runs.

## Where code and documentation disagree

The model follows the code. Each point below has a lemma with a concrete input and one with
the exact condition under which the documented behaviour holds.

- Locking the ticket row does not stop a double hop, because the due time is not read again
  after the lock (`Escalation.ManualHopIsDoubled`, `Escalation.DoubleHopExactly`). A ticket
  closed in between is opened again (`Escalation.ClosedTicketIsReopened`,
  `Escalation.ClosedTicketReopensExactly`). An edit or a placement
  that writes an old copy's level puts a ticket below its history, and can have it hop to
  one level twice (`Escalation.StaleEditRepeatsLevel`,
  `Escalation.StalePlacementLowersTicket`, `Escalation.ApplyFollowsExactly`).
- The cycle check looks only at the new place of an edited row
  (`StaffHierarchy.MoveCanExposeCycle`, `StaffHierarchy.ChangeKeepsAcyclicExactly`), and over
  inactive rows as well, which escalation does not see
  (`StaffHierarchy.DeactivationCanExposeCycle`, `StaffHierarchy.ActiveRowsAcyclicExactly`).
  It holds no lock until the save, so two overlapping inserts can close a cycle
  (`StaffHierarchy.OverlappingInsertsCloseCycle`, `StaffHierarchy.OverlappingInsertsExactly`).
- An approval is checked before the deadline but may be stamped after it
  (`RetripDecision.ApprovalStampMayBeLate`, `RetripDecision.LateStampsExactly`).
- A failed background job can still become completed (`BackgroundJob.FailedIsNotFinal`,
  `BackgroundJob.FailureStandsExactly`).
- A breakdown continuation does not carry stops that are missing from the plan
  (`RetripCarryOver.BreakdownLosesAStop`, `RetripCarryOver.BreakdownLosesUnplannedStops`).
- The cache scopes collected for a cascade can miss a model that only a property of the row
  leads to (`CascadeDelete.PropertyRelationMissesScope`,
  `CascadeDelete.CoversEveryTableExactly`).
- The two directions between keys and snapshots are not inverse when a whole-screen or
  whole-module grant stands beside a narrower one, and such a change is not audited
  (`PermissionSnapshot.AuditMissesWholeScreenGrant`,
  `PermissionSnapshot.RoundTripIsIdentityExactly`, `PermissionSnapshot.UnloggedExactly`).
- While a notice is active its plan and date can still get a trip: by an approved Re-Trip or
  vehicle replacement, by entering one, by resolving the last stop on a screen, or by a
  start, an end, an edit or a log save after a stale read
  (`ServiceNotice.ReTripEscapesNotice`, `ServiceNotice.CreatedTripEscapesNotice`,
  `ServiceNotice.StaleStartEscapesNotice`, `ServiceNotice.StepKeepsInvExactly`).
- Moving a generated trip onto a slot whose own trip is cancelled leaves two generated trips
  there (`ServiceNotice.MovedTripDoubles`, `ServiceNotice.StepKeepsOneGenerated`).
- The check of a session and the sweep can close it as of different times
  (`LoginSession.CheckAndSweepDisagree`, `LoginSession.CheckAndSweepAgreeExactly`).
- A closed session can be accepted for longer than a minute when a load is slow between
  reading the row and stamping the entry (`LoginSession.SlowLoadOutlivesClose`,
  `LoginSession.MinuteHoldsExactly`), and overlapping closes do not keep the first
  (`LoginSession.OverlappingCloseOverwrites`, `LoginSession.LogoutStaysExactly`).
- The bulk waste breakdown does not mirror the per-assignment one: sanitary waste is not
  added up (`WasteBreakdown.BulkDropsSanitary`, `WasteBreakdown.BulkMirrorsTypeExactly`).
- Adding business minutes in two steps differs from adding them at once when the second step
  is empty and the first ends on closing time (`BusinessTime.NothingMoreMovesClosing`,
  `BusinessTime.DeadlineComposition`).

## Model

| member | source | states |
|---|---|---|
| `StaffHierarchy.CompleteGeo` | app/utils/staff_hierarchy.py:89-102 | the loop drops blanks and fills missing parents, narrowest level first, as the completion function does |
| `StaffHierarchy.CompletionIsWellFormed` | app/utils/staff_hierarchy.py:89-102 | with parented masters a completed scope has every ancestor set, one local body, and keeps what it was given |
| `StaffHierarchy.CompletionStaysOnPath` | app/utils/staff_hierarchy.py:89-102 | on whatever path of the masters the given levels lie, the completed ones lie too |
| `StaffHierarchy.CompletionIsTrueExactly` | app/utils/staff_hierarchy.py:89-102 | the completed levels are those named by the master record of every set level below exactly when the given ones lie on one path of the masters |
| `StaffHierarchy.ScopesNest` | app/utils/staff_hierarchy.py:113-114 | two completed scopes that cover one area are nested |
| `StaffHierarchy.ResolveEntry` | app/utils/staff_hierarchy.py:117-130 | the loop keeps the first row of highest rank among those that cover the area |
| `StaffHierarchy.ResolveIsDeepest` | app/utils/staff_hierarchy.py:117-130 | the deciding row exists exactly when some row of the role covers the area, and none covering it outranks it |
| `StaffHierarchy.ResolveIsNarrowest` | app/utils/staff_hierarchy.py:117-130 | among completed scopes the decider's lies inside that of every other row of the role covering the area |
| `StaffHierarchy.ResolveTakesFirst` | app/utils/staff_hierarchy.py:117-130 | of rows with one scope the one listed first decides |
| `StaffHierarchy.WalkRevisits` | app/utils/staff_hierarchy.py:144-151 | the walk up the chain ends on any rows, and reports a revisit exactly when the start reaches a reporting cycle |
| `StaffHierarchy.FindCycle` | app/utils/staff_hierarchy.py:133-152 | true exactly when, in the pending row's area or a row area inside it, the pending role reaches a cycle |
| `StaffHierarchy.DeepestScope` | app/utils/staff_hierarchy.py:133-142 | among nested scopes covering an area there is one that every other covers |
| `StaffHierarchy.SameChainAtDeepest` | app/utils/staff_hierarchy.py:133-142 | the chain of an area is, at every step, the chain of the deepest row scope covering it |
| `StaffHierarchy.CaughtByCheck` | app/utils/staff_hierarchy.py:137-151 | a cycle reached anywhere inside a row's scope is reached in one of the areas looked at |
| `StaffHierarchy.NewCycleIsCaught` | app/utils/staff_hierarchy.py:133-152 | a cycle that appears with a change of rows is found from the place of an added or a removed row |
| `StaffHierarchy.ChangeKeepsAcyclicExactly` | app/utils/staff_hierarchy.py:133-152 | a change of rows keeps every completed area acyclic exactly when the check passes from each added row and from each removed row's old place |
| `StaffHierarchy.TopRowClosesNoCycle` | app/serializers/superadmin/role_management/staffhierarchy_serializer.py:177-180 | a row that reports to nobody closes no cycle, so skipping the check for it is safe |
| `StaffHierarchy.InsertGuardIsExact` | app/serializers/superadmin/role_management/staffhierarchy_serializer.py:172-180 | an insert is refused exactly when it would put a cycle in some area |
| `StaffHierarchy.OverlappingInsertsExactly` | app/serializers/superadmin/role_management/staffhierarchy_serializer.py:172-180 | of two inserts checked before either is saved, both rows keep every area acyclic exactly when the second check would have passed with the first row read |
| `StaffHierarchy.OverlappingInsertsCloseCycle` | app/serializers/superadmin/role_management/staffhierarchy_serializer.py:172-180 | two inserts that pass their checks without seeing each other and together close a cycle |
| `StaffHierarchy.TopEditClosesNoCycle` | app/serializers/superadmin/role_management/staffhierarchy_serializer.py:177-180 | nor does an edit that takes away a row's head, so skipping the check for it is safe too |
| `StaffHierarchy.EditInPlaceIsExact` | app/serializers/superadmin/role_management/staffhierarchy_serializer.py:172-180 | an edit that keeps role and scope, with the guard on a head, is refused exactly when it would put a cycle in some area |
| `StaffHierarchy.ActiveRowsAcyclicExactly` | app/services/complaint_escalation.py:56-59 | with no cycle over all rows there is none over the active ones exactly when the check would pass from every inactive row's place |
| `StaffHierarchy.DeactivationCanExposeCycle` | app/services/complaint_escalation.py:56-59 | a row whose deactivation leaves a cycle among the active rows |
| `StaffHierarchy.SavedHierarchyStaysAcyclic` | app/serializers/superadmin/role_management/staffhierarchy_serializer.py:22-52 | over all areas that saving can store, the insert guard decides acyclicity everywhere |
| `StaffHierarchy.MoveCanExposeCycle` | app/serializers/superadmin/role_management/staffhierarchy_serializer.py:172-180 | moving a row to another area can pass the check and leave a cycle where it was |
| `StaffHierarchy.BareScopeHidesCycle` | app/utils/staff_hierarchy.py:133-142 | with scopes that were not completed, a cycle can lie in an area the check never looks at |
| `BusinessTime.AddBusinessMinutes` | app/utils/complaint_ticket_routing.py:21-50 | both loops end and compute the deadline function; the second needs a two-part measure |
| `BusinessTime.WorkCountsHours` | app/utils/complaint_ticket_routing.py:16-18 | working time moves with the clock exactly inside Monday to Saturday, 09:00 to 18:00 |
| `BusinessTime.AlignKeepsWork` | app/utils/complaint_ticket_routing.py:27-35 | moving to the next opening costs no working time and lands in the hours or on the start |
| `BusinessTime.AddOpenWork` | app/utils/complaint_ticket_routing.py:37-49 | working time used by the second loop: the minutes asked for plus the part minutes lost at closing |
| `BusinessTime.DeadlineBound` | app/utils/complaint_ticket_routing.py:21-50 | the working time to the deadline is at least the minutes asked for and under one more, and the deadline lies in a working window or on its closing |
| `BusinessTime.DeadlineComposition` | app/utils/complaint_ticket_routing.py:21-50 | adding a then b minutes is adding a+b exactly when b is positive or the first deadline is not on 18:00 |
| `BusinessTime.NothingMoreMovesClosing` | app/utils/complaint_ticket_routing.py:21-50 | nine hours from Monday 09:00 end on 18:00, and zero minutes more on Tuesday 09:00 |
| `BusinessTime.DeadlineMonotoneInStart` | app/utils/complaint_ticket_routing.py:21-50 | a later start never has an earlier deadline |
| `BusinessTime.DeadlineStrictInMinutes` | app/utils/complaint_ticket_routing.py:21-50 | more minutes have a strictly later deadline |
| `EscalationLevels.ComputeRoleLevels` | app/services/complaint_escalation.py:66-90 | the loops compute the chain's levels: own rows, less those with escalation off when asked, then heads one above their highest reporter |
| `EscalationLevels.ResolveAll` | app/services/complaint_escalation.py:72-78 | level and deciding row of every role with a row, whatever order the roles come in |
| `EscalationLevels.CollectHeads` | app/services/complaint_escalation.py:80-84 | each head without a row gets one more than its highest reporter, whatever the order |
| `EscalationLevels.DropSilent` | app/services/complaint_escalation.py:85-88 | exactly the roles whose deciding row has escalation off are dropped |
| `EscalationLevels.OwnRowLevel` | app/services/complaint_escalation.py:72-90 | a role with a deciding row has that row's level, unless escalation is off there and only escalating roles are asked for |
| `EscalationLevels.HeadLevel` | app/services/complaint_escalation.py:80-90 | a role without one takes part exactly when a deciding row reports to it, one above the highest of those, silent or not |
| `EscalationLevels.CoversByOneBody` | app/services/complaint_escalation.py:146-159 | a member with one local body covers what a row of that scope covers, and one with several what any of them would |
| `EscalationLevels.HolderComesFirst` | app/services/complaint_escalation.py:162-183 | nobody active at the level and covering the area has a deeper scope than the holder, or as deep with a login where it has none, or else a lower id |
| `EscalationLevels.StaffForLevelIsPreferred` | app/services/complaint_escalation.py:162-183 | the holder is an active staff member of the level covering the area that no other such member is preferred to, and is missing only when there is none |
| `EscalationLevels.NextLevelIsFirst` | app/services/complaint_escalation.py:209-220 | the next level is the lowest above the ticket's with covering staff, or missing when there is none |
| `EscalationLevels.FirstHandledLevel` | app/services/complaint_escalation.py:214-220 | the scan upward finds the lowest level above the given one that someone handles |
| `EscalationLevels.NextLevelStaff` | app/services/complaint_escalation.py:209-220 | the whole lookup, from rows to staff member, equals its specification |
| `EscalationLevels.SilentRolePlacesOnly` | app/services/complaint_escalation.py:66-90 | a role with escalation off still places its own members, and no ticket climbs to it |
| `EscalationLevels.OwnLevelOf` | app/services/complaint_escalation.py:239-240 | the level of an assigned member's own role, with escalation off or on |
| `Escalation.HoppedRow` | app/services/complaint_escalation.py:364-396 | the row after a hop: the deadline is that of the level reached, in working or clock time from now, with holder, status and one history row; all else stays |
| `Escalation.PlacedRow` | app/services/complaint_escalation.py:226-254 | a ticket is placed at its assigned member's own level or else the first staffed one, with that level's deadline |
| `Escalation.RenewedDeadline` | app/services/complaint_escalation.py:279-320 | restarting counts the window of the ticket's level from now, rescheduling from when an open placed ticket reached it |
| `Escalation.RenewedFromCopy` | app/services/complaint_escalation.py:279-320 | the same from an old copy, whose level and deadline decide |
| `Escalation.SweptExactly` | app/services/complaint_escalation.py:442-462 | an undisturbed sweep acts on exactly the open tickets whose deadline has passed: a hop, or with nothing above a cleared deadline |
| `Escalation.ApplyFollowsExactly` | app/services/complaint_escalation.py:226-396 | a write leaves a ticket's history and a placed ticket's level, or adds one hop upward, exactly when it is neither the save of an edited copy with another level nor a placement from a copy without level and deadline that has another entry level; once there is a history, it keeps climbing to the ticket's level exactly then |
| `Escalation.FollowsClimbs` | app/services/complaint_escalation.py:387-396 | such a step keeps the history a climb that tells the ticket's level |
| `Escalation.RunGoesUp` | app/services/complaint_escalation.py:351-396 | over every run, old copies or not, the history only grows and each hop goes up from where it started |
| `Escalation.RunClimbs` | app/services/complaint_escalation.py:351-396 | over any run without such a write, with hierarchy and staff changing between steps, the history only grows, climbs, and its last level is the ticket's |
| `Escalation.LevelsStrictlyIncrease` | app/services/complaint_escalation.py:387-396 | levels in a ticket's history strictly increase |
| `Escalation.HopSkipsNoStaffedLevel` | app/services/complaint_escalation.py:364-379 | a hop goes to covering staff at the lowest staffed level above, and fails only when no level above has covering staff |
| `Escalation.HopsBoundedByLevels` | app/services/complaint_escalation.py:351-396 | with hierarchy and staff fixed, hops in any run and the staffed levels still above are at most those at the start, plus all staffed levels once for each write of another level |
| `Escalation.HopUsesUpALevel` | app/services/complaint_escalation.py:364-379 | each hop leaves strictly fewer staffed levels above |
| `Escalation.SweepsSettle` | app/services/complaint_escalation.py:442-462 | with hierarchy and staff fixed, one sweep more than there are staffed levels above leaves no pending deadline |
| `Escalation.SweepOnceIsRun` | app/services/complaint_escalation.py:442-462 | an undisturbed visit of the sweep is the run of its locked half and, with no level above, its clearing write |
| `Escalation.DoubleHopExactly` | app/services/complaint_escalation.py:442-462 | with no write of another level in between, a sweep gives a ticket at most one hop since its query exactly when the level at the lock is the queried one, or nothing is left above after one hop |
| `Escalation.ManualHopIsDoubled` | app/services/complaint_escalation.py:351-377 | a manual hop between the sweep's query and its lock is followed by a second one, with the new deadline still ahead |
| `Escalation.ClosedTicketReopensExactly` | app/services/complaint_escalation.py:364-461 | with no write of another level in between, a ticket overdue at the query and closed before the lock stays closed exactly when nothing is above it or the ESCALATED status is missing, and else is open at a higher level |
| `Escalation.ClosedTicketIsReopened` | app/services/complaint_escalation.py:306-461 | a ticket resolved, its clock stopped, between query and lock is escalated all the same |
| `Escalation.StalePlacementLowersTicket` | app/services/complaint_escalation.py:226-254 | a ticket placed from an old copy after a hop falls below the last level of its history |
| `Escalation.StaleEditRepeatsLevel` | app/serializers/core_modules/complaint_management/transaction_serializers.py:318-322 | an edit that read an overdue ticket before the sweep and saves it after puts it back at its old level, overdue, and the next sweep adds a second hop to the same level |
| `Escalation.ComplaintTicket.EscalateTicket` | app/services/complaint_escalation.py:364-396 | the row after an escalation, and the refusal that leaves it unchanged |
| `Escalation.ComplaintTicket.SweepIfOverdue` | app/services/complaint_escalation.py:448-461 | one undisturbed visit: overdue tickets hop or lose their deadline, others stay |
| `Escalation.ComplaintTicket.SetInitialEscalation` | app/services/complaint_escalation.py:226-254 | entry level, from the assigned member's own or the first staffed one, deadline and assignee, written to the row when the caller's copy has neither level nor deadline |
| `Escalation.ComplaintTicket.StopEscalationClock` | app/services/complaint_escalation.py:306-310 | the row's deadline goes when the caller's copy has one, all else stays |
| `Escalation.ComplaintTicket.RestartEscalationClock` | app/services/complaint_escalation.py:313-320 | the level of the caller's copy gets a fresh window where that differs from the copy's deadline, all else stays |
| `Escalation.CheckAndEscalateOverdueTickets` | app/services/complaint_escalation.py:442-462 | undisturbed, every ticket is visited once, and the count is the number that hopped |
| `RetripDecision.SweepSendsExactly` | app/services/retrip_timeout_service.py:154-202 | over any live pending request, stamped and reminded or not: in time an escalation exactly at its age when none was sent, else a reminder exactly at its age when none was sent, else nothing |
| `RetripDecision.SweptRow` | app/services/retrip_timeout_service.py:154-202 | the row after a sweep: expiry stamped, the notice's time, and status and review exactly when out of time |
| `RetripDecision.OutcomeIsWhatWasSent` | app/services/retrip_timeout_service.py:154-204 | what the sweep counts is what it sent |
| `RetripDecision.DueSweepEscalates` | app/services/retrip_timeout_service.py:173-190 | in any run one sweep in time at the age of escalation leaves a pending live request escalated for good |
| `RetripDecision.DecisionRow` | app/services/retrip_service.py:276-385 | a decision in time at its checks is recorded with verdict and stamp, a failed one changes nothing, and a late one expires the request at the reading that found out |
| `RetripDecision.ExpiresOnDemandExactly` | app/services/retrip_timeout_service.py:94-140 | on demand a request expires exactly when pending and out of time, deleted or not |
| `RetripDecision.WindowsAsSet` | app/services/retrip_timeout_service.py:32-48 | 30, 10 and 20 minutes without settings; settings as given, but at least one minute and the notices at most the expiry |
| `RetripDecision.ApplyKeepsDeadline` | app/services/retrip_timeout_service.py:51-54 | no transaction moves a request's deadline or a stamped expiry, or changes a decided request |
| `RetripDecision.RunConsistent` | app/services/retrip_timeout_service.py:94-202 | over any run the log, the stamps and the status agree, and the deadline never moves |
| `RetripDecision.OutcomeRespectsDeadline` | app/services/retrip_timeout_service.py:94-140 | in every interleaving a request leaves Pending at most once, decided strictly before its deadline or expired at or after it |
| `RetripDecision.NoticesAtMostOnce` | app/services/retrip_timeout_service.py:173-202 | at most one reminder and one escalation, no reminder after an escalation, nothing after a decision |
| `RetripDecision.ApprovalStampMayBeLate` | app/services/retrip_service.py:283-385 | the stamped review time of an approval can lie after the deadline: only the check is made before it |
| `RetripDecision.WindowsEndByTimeout` | app/services/retrip_timeout_service.py:32-48 | whatever the settings, no window is empty, and reminder and escalation fall due no later than expiry |
| `RetripDecision.NoticesSendableExactly` | app/services/retrip_timeout_service.py:39-202 | a sweep can escalate a new request exactly when that setting is below the expiry's, and remind of it alone exactly when that one is below both |
| `RetripDecision.LateStampsExactly` | app/services/retrip_service.py:276-385 | over all runs a review is stamped at or after the deadline exactly when some step was a decision in time at both checks whose last clock reading was not |
| `RetripDecision.DecisionsAreCheckedInTime` | app/services/retrip_service.py:276-385 | every recorded decision was checked before the deadline, and is the request's status and stamp |
| `RetripDecision.SettledStays` | app/services/retrip_timeout_service.py:154-171 | a request settled with respect to a time stays settled, whatever the other transactions |
| `RetripDecision.SweepLeavesNoneDue` | app/services/retrip_timeout_service.py:143-171 | after a sweep at time t, with anything in between, no live request is Pending with deadline at or before t |
| `RetripDecision.RetripRow.ExpireIfDue` | app/services/retrip_timeout_service.py:94-140 | the row after an on-demand expiry, true only on the transition |
| `RetripDecision.RetripRow.SweepRow` | app/services/retrip_timeout_service.py:154-202 | the row after its part of a sweep, and what was sent |
| `RetripDecision.RetripRow.Review` | app/services/retrip_service.py:276-285 | the row after an approval or rejection; a late one expires the request at a further clock reading instead |
| `RetripDecision.ProcessRetripTimeouts` | app/services/retrip_timeout_service.py:143-204 | every row is processed once and the counters are the numbers of outcomes |
| `RetripCarryOver.StopTable.GetOrCreate` | app/services/retrip_service.py:256-262 | adds a pending stop exactly when the trip has none with the key |
| `RetripCarryOver.StopTable.AddMissing` | app/signals/trip_plan_signals.py:140-163 | afterwards the trip has its earlier keys and the wanted ones, each once, and other trips are untouched |
| `RetripCarryOver.StopTable.Prune` | app/services/retrip_service.py:320-335 | deletes exactly the trip's stops whose key is not kept |
| `RetripCarryOver.StopTable.MarkCarried` | app/services/retrip_service.py:351-356 | the listed stops point at the continuation, nothing else changes |
| `RetripCarryOver.CarryBins` | app/services/retrip_service.py:303-327 | bin stops of the continuation: one per carried pair, or per carried pair the clone has when live stops are not added |
| `RetripCarryOver.CarryHomes` | app/services/retrip_service.py:308-345 | household stops of the continuation, pruned by customer alone, with the waiting customers' availability handed on |
| `RetripCarryOver.SpreadAvailability` | app/services/retrip_service.py:340-345 | the loop copies each waiting customer's time onto the continuation's stops of that customer |
| `RetripCarryOver.ApproveCarryOver` | app/services/retrip_service.py:286-356 | whatever the plan clone made: the selected open stops, and no other, point at the continuation, which has exactly one bin stop per pair and serves exactly those customers, in the plan's sequence or else their own; refused for a selected stop that is not open; an error changes nothing |
| `RetripCarryOver.BreakdownCarryOver` | app/services/retrip_service.py:181-229 | the selected open bin stops and all open household stops point at the continuation, which gets only what the plan clone has of them |
| `RetripCarryOver.SelectionIsOpen` | app/services/retrip_service.py:294-297 | a selection is accepted exactly when each id in it is that of a stop of the trip neither deleted, collected nor missed |
| `RetripCarryOver.BinsAreApproved` | app/services/retrip_service.py:286-356 | of the bin stops exactly the selected open ones, or all open ones, point at the continuation, which serves exactly their keys |
| `RetripCarryOver.HomesAreApproved` | app/services/retrip_service.py:286-356 | the same for household stops, with the plan's stops of those customers, and who waits since when |
| `RetripCarryOver.BinsAreReplaced` | app/services/retrip_service.py:181-229 | after a breakdown exactly the selected open bin stops point at the continuation, which serves those of their keys that the plan has |
| `RetripCarryOver.HomesAreReplaced` | app/services/retrip_service.py:181-229 | all open household stops do, and it serves the plan's stops of their customers |
| `RetripCarryOver.BinsAreSequenced` | app/services/retrip_service.py:250-264 | sequence numbers on the continuation are the plan's where it has the key, and those of the selected stops otherwise |
| `RetripCarryOver.HomesAreSequenced` | app/services/retrip_service.py:250-264 | the same for household stops |
| `RetripCarryOver.CarriedStopLandsExactly` | app/services/retrip_service.py:351-356 | a carried stop has a counterpart on the continuation exactly when its key landed, and then only one |
| `RetripCarryOver.LandedCount` | app/services/retrip_service.py:387-389 | the continuation has as many stops as keys landed |
| `RetripCarryOver.BreakdownLosesUnplannedStops` | app/services/retrip_service.py:207-229 | after a breakdown a carried stop has a counterpart exactly when the plan has its key |
| `RetripCarryOver.BreakdownLosesAStop` | app/services/retrip_service.py:207-229 | one pending stop, an empty plan: marked as moved and on no trip |
| `BackgroundJob.StepKeepsInv` | app/services/background_jobs.py:226-259 | at most one call holds the job; finished stays finished and completed stays completed at every access |
| `BackgroundJob.BodyRunsAtMostOnce` | app/services/background_jobs.py:226-259 | in every interleaving of worker, web process, crash and redelivery the body starts at most once, one call at most completes the job, and a returned call leaves it finished |
| `BackgroundJob.FinishedIsFinal` | app/services/background_jobs.py:126-152 | a finished job is never queued or processing again, and a completed one stays completed |
| `BackgroundJob.FailureStands` | app/services/background_jobs.py:226-259 | without a call that can still succeed a failed job stays failed in every run |
| `BackgroundJob.FailureStandsExactly` | app/services/background_jobs.py:226-259 | a failed job stays failed in every run exactly when no call stands before, in, or past a successful body |
| `BackgroundJob.FailedIsNotFinal` | app/services/background_jobs.py:226-259 | a second call writes FAILED while the first still works, and the first then completes the job |
| `BackgroundJob.CallAlone` | app/services/background_jobs.py:226-259 | one call with nothing in between: a queued job ends as its body does, a running one failed, a finished one as it was |
| `BackgroundJob.JobRow.RunJob` | app/services/background_jobs.py:226-259 | one call alone: a queued job runs and is saved, a running one is failed as interrupted, a finished one is left |
| `GraphWalk.Walker.Walk` | app/utils/cascade_delete.py:312-329 | the recursive walk ends on cyclic graphs, adds only what is reachable, and leaves no successor behind but of callers in progress |
| `GraphWalk.WalkFrom` | app/utils/cascade_delete.py:310-331 | visits exactly what is reachable from the root, each node once |
| `GraphWalk.ClosedHoldsReachable` | app/utils/cascade_delete.py:310-331 | a set closed under successors holds everything reachable from it |
| `GraphWalk.ReachesLifts` | app/utils/cascade_delete.py:404-412 | what is reachable stays so under a map that keeps every step |
| `CascadeDelete.Database.CascadeSoftDelete` | app/utils/cascade_delete.py:265-388 | every reachable row is swept, once, with its reason, time and actors, and every other row is unchanged, on any row graph |
| `CascadeDelete.SweptIsCascaded` | app/utils/cascade_delete.py:333-388 | the root ends with the reason cut to 500, a live row below it with that and a note naming the root, cut; each with time, updater and the named deleter, or else the updater |
| `CascadeDelete.RowStepExactly` | app/utils/cascade_delete.py:312-329 | the walk steps from a row to exactly those behind the relations its model declares |
| `CascadeDelete.ModelStepExactly` | app/utils/cascade_delete.py:391-428 | the model walk steps to exactly the models that declared relations resolve to |
| `CascadeDelete.Database.SweepVisited` | app/utils/cascade_delete.py:333-352 | over all models: live rows get one stamp with the tagged reason, the root the plain one, deleted rows keep theirs |
| `CascadeDelete.Database.BulkUpdate` | app/utils/cascade_delete.py:335-352 | one model's update: only its live visited rows change |
| `CascadeDelete.SweptOnceForAll` | app/utils/cascade_delete.py:342-388 | a swept row is deleted, and a later delete leaves it alone except for a root's own reason |
| `CascadeDelete.TagSurvivesExactly` | app/utils/delete_reason.py:42-46 | the tag naming the parent survives in full exactly when it fits the column, and is lost altogether when the reason fills it |
| `CascadeDelete.CollectCascadeCacheScopes` | app/utils/cascade_delete.py:391-428 | the scopes of exactly the models reachable at class level |
| `CascadeDelete.RowPathHasModelPath` | app/utils/cascade_delete.py:312-331 | every row path over relations known to the class level has a model path |
| `CascadeDelete.ScopesCoverSweptRows` | app/utils/cascade_delete.py:391-428 | the scopes of every row reached through relations the class level resolves are collected |
| `CascadeDelete.ModelReachHasRowReach` | app/utils/cascade_delete.py:312-331 | what the model walk reaches is swept in the table with one row of every model |
| `CascadeDelete.CoversEveryTableExactly` | app/utils/cascade_delete.py:391-428 | the collected scopes hold every scope of a swept row, whatever the rows, exactly when each scope reachable through the relations rows have is declared by a model the class level reaches |
| `CascadeDelete.PropertyRelationMissesScope` | app/utils/cascade_delete.py:217-235 | a relation that only exists as a property is swept but its scope is missed |
| `PermissionSnapshot.ScreenKeys` | app/utils/permission_snapshot.py:199-205 | the keys of one screen entry |
| `PermissionSnapshot.ModuleKeys` | app/utils/permission_snapshot.py:196-205 | the keys of one module: itself when it has no screens, otherwise those of its screens |
| `PermissionSnapshot.SnapshotKeys` | app/utils/permission_snapshot.py:191-206 | exactly the keys the snapshot holds |
| `PermissionSnapshot.AddGrantKeepsBuilt` | app/utils/permission_snapshot.py:142-161 | adding one grant to the tree of some keys gives the tree of one key more |
| `PermissionSnapshot.SnapshotFromKeys` | app/utils/permission_snapshot.py:209-224 | the snapshot has the apps, modules, screens and grants the keys name, and no others |
| `PermissionSnapshot.FiledUnderMainScreen` | app/utils/permission_snapshot.py:142-161 | a screen's grants stand under the main screen the catalog gives it, or under none, and nowhere else |
| `PermissionSnapshot.RoundTrip` | app/utils/permission_snapshot.py:191-224 | the keys read back are the given ones less the dominated ones |
| `PermissionSnapshot.RebuildingIsTheSame` | app/utils/permission_snapshot.py:191-224 | rebuilding from the keys read back gives the same snapshot |
| `PermissionSnapshot.RoundTripIsIdentityExactly` | app/utils/permission_snapshot.py:191-224 | the round trip is the identity exactly on key sets with no dominated key |
| `PermissionSnapshot.ChangedModuleIds` | app/utils/permission_snapshot.py:227-237 | each touched main screen once |
| `PermissionSnapshot.ChangedModulesExactly` | app/utils/permission_snapshot.py:227-237 | a main screen is touched exactly when its part of the tree differs |
| `PermissionSnapshot.WriteAccessAudit` | app/utils/permission_snapshot.py:350-376 | a row exactly when keys differ or it is a delete; its main screen exactly when one alone is touched |
| `PermissionSnapshot.WritePermissionAudits` | app/utils/permission_snapshot.py:397-412 | one row per owner whose grants changed beyond dominated keys or vanished, none for any other, each telling the change |
| `PermissionSnapshot.UnloggedExactly` | app/utils/permission_snapshot.py:397-412 | a changed owner has no row exactly when something is left and only dominated keys came or went |
| `PermissionSnapshot.AuditTrailIsComplete` | app/utils/permission_snapshot.py:397-412 | what an owner may do afterwards can be read from the rows and the old grants |
| `PermissionSnapshot.NormalStatesAreLogged` | app/utils/permission_snapshot.py:397-412 | over states with no dominated key a row is due exactly when the grants differ |
| `PermissionSnapshot.AuditMissesWholeScreenGrant` | app/utils/permission_snapshot.py:350-355 | a whole-screen grant beside one of its actions is not logged |
| `ServiceNotice.DeclareRefusedExactly` | app/services/daily_service_notice.py:206-233 | a notice is refused, in this order, for an unknown reason, OTHER without a text, an active notice, or work begun on the slot, a collected stop included; a refusal changes nothing |
| `ServiceNotice.DeclaredRows` | app/services/daily_service_notice.py:235-244 | the slot's live scheduled trips are cancelled with remarks that give the text or else the reason; others stay |
| `ServiceNotice.RevokedRows` | app/services/daily_service_notice.py:275-297 | the slot's live cancelled trips with a notice's remarks are scheduled again and say why; others stay |
| `ServiceNotice.GeneratedExactly` | app/services/daily_trip_generation.py:77-113 | one scheduled trip is added exactly when no notice is active and the slot has no live trip |
| `ServiceNotice.StepOnTrip` | app/models/core_modules/daily_operations/daily_trip_assignment.py:360-388 | what starting, ending, saving a log, cancelling, editing, collecting and deleting make of a trip, and nothing else changes one |
| `ServiceNotice.StepAddsTrip` | app/services/retrip_service.py:310-367 | the trips that continuations, replacements and the assignment screen add |
| `ServiceNotice.StepKeepsInvExactly` | app/services/daily_service_notice.py:205-299 | from a safe state a step keeps the notice invariant exactly when it is not one of the unguarded ones, told before the step |
| `ServiceNotice.ChangeKeepsInvExactly` | app/models/core_modules/daily_operations/daily_trip_log.py:259-311 | the same for one trip's row: a log save refused for a trip read as cancelled harms nothing, one from two stale reads does |
| `ServiceNotice.RunKeepsInv` | app/services/daily_service_notice.py:205-299 | a run without unguarded steps keeps the invariant |
| `ServiceNotice.GuardedNeverBreaks` | app/viewsets/core_modules/daily_operations/daily_trip_assignment_viewset.py:216-225 | starts, ends, log saves, cancellations and edits whose reads still hold are no such steps |
| `ServiceNotice.GuardedRunsAreSafe` | app/services/daily_service_notice.py:205-299 | over all runs of guarded steps an active notice means every live trip of its plan and date is cancelled |
| `ServiceNotice.ReTripEscapesNotice` | app/services/retrip_service.py:310-367 | an approved Re-Trip on a trip cancelled by a notice completes it and adds a scheduled one under the notice |
| `ServiceNotice.StaleStartEscapesNotice` | app/models/core_modules/daily_operations/daily_trip_assignment.py:360-388 | a start whose screen still showed the trip as scheduled puts it in progress under the notice |
| `ServiceNotice.CreatedTripEscapesNotice` | app/serializers/core_modules/daily_operations/daily_trip_assignment_serializer.py:666-679 | a new trip entered by hand is checked against other trips of the date, not against a notice |
| `ServiceNotice.RevokeUndoesDeclare` | app/services/daily_service_notice.py:274-297 | after any admissible steps in between, and edited trips aside, revoking gives every live trip of the slot the status it had, schedules no other, and touches no other slot |
| `ServiceNotice.StepKeepsStanding` | app/services/daily_service_notice.py:205-260 | while a notice stands the trips it cancelled stay marked and none that came later is |
| `ServiceNotice.StepKeepsOneGenerated` | app/services/daily_trip_generation.py:77-113 | a step makes a second live generated trip exactly when it is an edit that moves one onto a date that has another, cancelled one |
| `ServiceNotice.MovedTripDoubles` | app/services/daily_trip_generation.py:77-113 | a run after which such an edit, with only a cancelled trip in its way, leaves two live generated trips on one slot |
| `ServiceNotice.RunsGenerateOnce` | app/services/daily_trip_generation.py:77-113 | however often generation runs, a slot has at most one live generated trip, such edits aside |
| `ServiceNotice.DailyOperations.ExistingAssignment` | app/services/daily_trip_generation.py:26-42 | the oldest live trip of the slot, missing exactly when there is none |
| `ServiceNotice.DailyOperations.HasStarted` | app/services/daily_service_notice.py:228-233 | whether a live trip of the slot is under way, done, or has a collected stop |
| `ServiceNotice.DailyOperations.CancelScheduled` | app/services/daily_service_notice.py:239-244 | exactly the slot's live scheduled trips become cancelled with the notice's remarks |
| `ServiceNotice.DailyOperations.RestoreCancelled` | app/services/daily_service_notice.py:286-297 | exactly the slot's live cancelled trips with the notice's remarks become scheduled |
| `ServiceNotice.DailyOperations.DeclareNoCollection` | app/services/daily_service_notice.py:206-271 | the refusals in order, an active notice is returned as it is, and the rows after a declaration |
| `ServiceNotice.DailyOperations.RevokeNoCollection` | app/services/daily_service_notice.py:275-299 | the rows after a revocation, refused when the notice is not active |
| `ServiceNotice.DailyOperations.GenerateAssignment` | app/services/daily_trip_generation.py:77-113 | refused under an active notice; otherwise the oldest live trip, created exactly when there was none |
| `LoginSession.StepKeepsInv` | app/services/login_session.py:132-152 | at every single access, what was read as open was read before the close |
| `LoginSession.RevocationBound` | app/services/login_session.py:132-168 | in any interleaving no check accepts that starts more than sixty seconds, plus the slowest load, after the close |
| `LoginSession.SlowLoadOutlivesClose` | app/services/login_session.py:116-129 | the bound is attained: after a load that stamps late, a check starting sixty seconds plus the lag after the close is accepted |
| `LoginSession.MinuteHoldsExactly` | app/services/login_session.py:132-168 | sixty seconds are the bound over all runs exactly when a load stamps at the instant it reads |
| `LoginSession.OverlappingCloseOverwrites` | app/services/login_session.py:58-77 | two overlapping closes: the second to save replaces the logout of the first |
| `LoginSession.LogoutStaysExactly` | app/services/login_session.py:58-77 | a closed session keeps its logout in every run exactly when no close that read it open has still to save another |
| `LoginSession.LogoutOf` | app/services/login_session.py:65-72 | a logout is never before the login and its duration is their difference in whole seconds |
| `LoginSession.CheckAndSweepDisagree` | app/services/login_session.py:156-200 | a session that the check closes as of its idle deadline and the sweep as of the earlier expiry of its token |
| `LoginSession.CheckAndSweepAgreeExactly` | app/services/login_session.py:156-200 | check and sweep agree on whether, how and as of when an open session ends exactly when an idle one ran out within its lifetime and another has lifetime left |
| `LoginSession.IdledExactly` | app/services/login_session.py:155-166 | a check closes an open session exactly when idle beyond its limit and 120 seconds of grace, as of the end of the limit |
| `LoginSession.SweptExactly` | app/services/login_session.py:171-201 | the sweep closes one exactly when its lifetime is over or it was idle beyond grace within it, as of and as whichever ended first |
| `LoginSession.OpenCheckAlone` | app/services/login_session.py:116-168 | the protocol of a check run alone accepts an open session that is not idle and fills the cache |
| `LoginSession.IdleCheckAlone` | app/services/login_session.py:116-168 | of an idle one it refuses, and the row is closed as the check alone closes it |
| `LoginSession.CloseAlone` | app/services/login_session.py:58-77 | a logout run alone closes the session as asked, never before its login |
| `LoginSession.TouchAlone` | app/services/login_session.py:80-86 | a heartbeat run alone moves the activity of an open session only |
| `LoginSession.LoginAudit.CloseSession` | app/services/login_session.py:58-77 | the first close wins; the cache entry goes |
| `LoginSession.LoginAudit.TouchSession` | app/services/login_session.py:80-86 | activity moves on an open session only |
| `LoginSession.LoginAudit.ValidateSession` | app/services/login_session.py:132-168 | cached or not, refuses exactly closed and idle sessions and closes an idle one as of its idle deadline |
| `LoginSession.LoginAudit.SweepRow` | app/services/login_session.py:183-200 | the candidate filter leaves out no stale row |
| `LoginSession.CloseStaleSessions` | app/services/login_session.py:171-201 | every stale session is closed and counted, no other touched, none stale left |
| `WasteBreakdown.AllIsBinPlusHousehold` | app/utils/waste_type_breakdown.py:104-365 | for every key and waste type the weight over both sources is bin weight plus household weight |
| `WasteBreakdown.ResolveSifts` | app/utils/waste_type_breakdown.py:303-318 | the configured ids in the order of the master list, unknown ones dropped |
| `WasteBreakdown.TypesInUse` | app/utils/waste_type_breakdown.py:286-318 | an assignment's own types, or with none known those of its plan if that was read; for households the household types first |
| `WasteBreakdown.DetailAt` | app/utils/waste_type_breakdown.py:168-260 | detail of a key and type is the bin weight of that type, and for households wet, dry and mixed waste each under its own type |
| `WasteBreakdown.NamedDetailAt` | app/utils/waste_type_breakdown.py:30-80 | the form for one assignment shows under a name the bins whose type has it and the column so labelled |
| `WasteBreakdown.SharesAreEven` | app/utils/waste_type_breakdown.py:327-343 | every type but the last gets the even share, the last what those leave |
| `WasteBreakdown.FallsBackExactly` | app/utils/waste_type_breakdown.py:345-363 | a source falls back exactly when its rows for the key have no weight and some type is configured |
| `WasteBreakdown.SharesSumToTotal` | app/utils/waste_type_breakdown.py:327-343 | the fallback shares add up to the log total exactly, however the even share was rounded |
| `WasteBreakdown.SourceTotal` | app/utils/waste_type_breakdown.py:262-363 | over all types a source's weight is its detail, or, without detail and with some type configured, exactly the log total |
| `WasteBreakdown.BatchMattersExactly` | app/utils/waste_type_breakdown.py:286-318 | an assignment's types differ from those it has alone exactly when none of its own ids is a known type and its plan was read for another assignment |
| `WasteBreakdown.BulkMirrorsTypeExactly` | app/utils/waste_type_breakdown.py:113-118 | for each waste type by name the detail weight equals that of the per-assignment form exactly when its sanitary waste equals the bin weight of unnamed types with that id |
| `WasteBreakdown.BulkMirrorsExactly` | app/utils/waste_type_breakdown.py:113-118 | over all types the detail totals are equal exactly when sanitary waste equals the bin weight of unnamed types |
| `WasteBreakdown.BulkDropsSanitary` | app/utils/waste_type_breakdown.py:229-253 | one kilogram of sanitary waste is in the per-assignment form and not in the bulk form |
| `WasteBreakdown.HouseholdsDiffer` | app/utils/waste_type_breakdown.py:229-237 | household detail of the bulk form plus sanitary waste is that of the per-assignment form |
| `WasteBreakdown.BinsDiffer` | app/utils/waste_type_breakdown.py:48-55 | bin detail of the per-assignment form plus the weight of unnamed types is that of the bulk form |
| `WasteBreakdown.Add` | app/utils/waste_type_breakdown.py:151-165 | zero weights are skipped, others add to the key's row |
| `WasteBreakdown.AddBins` | app/utils/waste_type_breakdown.py:196-210 | bin detail is added up and its keys with weight are noted |
| `WasteBreakdown.AddHouseholds` | app/utils/waste_type_breakdown.py:246-260 | household detail is added up and its keys with weight are noted |
| `WasteBreakdown.AddConfiguredFallback` | app/utils/waste_type_breakdown.py:327-343 | even shares, the last type takes what is left |
| `WasteBreakdown.AddLog` | app/utils/waste_type_breakdown.py:345-363 | each source falls back only where it has no detail |
| `WasteBreakdown.BulkWasteTypeRows` | app/utils/waste_type_breakdown.py:104-365 | each row is the sum of what was recorded for its key, and there is a row exactly where some weight was |
| `WasteBreakdown.BreakdownForAssignments` | app/utils/waste_type_breakdown.py:30-80 | the same for the per-assignment form, by type name |
| `GeoNormalize.GeoForm.SelectedBodies` | app/utils/hierarchy.py:296-299 | the selected local bodies, each once |
| `GeoNormalize.GeoForm.PinToBody` | app/utils/hierarchy.py:329-342 | the local body's levels are written in, refused exactly when a submitted one contradicts it, and the error names such a level |
| `GeoNormalize.GeoForm.AlignArea` | app/utils/hierarchy.py:351-360 | the same for an area type, which only fills in what was not submitted |
| `GeoNormalize.GeoForm.AlignDistrict` | app/utils/hierarchy.py:361-365 | the same for a district |
| `GeoNormalize.GeoForm.Align` | app/utils/hierarchy.py:309-365 | body first, then parents: refused exactly when a submitted level is not above the narrowest one |
| `GeoNormalize.GeoForm.Normalize` | app/utils/hierarchy.py:278-372 | the form is refused exactly for two local bodies, a contradicting level, or no geography where required, and otherwise has the narrowest level's parents written in |
| `GeoNormalize.BodyDecides` | app/utils/hierarchy.py:329-342 | with a local body, state, district and area type become those of its row, refused exactly when another was submitted |
| `GeoNormalize.ParentDecides` | app/utils/hierarchy.py:344-365 | without one an area type, or else a district, fills in what was not submitted, refused exactly when what was is not its own |
| `GeoNormalize.AcceptedIsTrue` | app/utils/hierarchy.py:278-372 | an accepted record has one local body at most and every level above is blank or the true ancestor |
| `GeoNormalize.NormalizingAgainChangesNothing` | app/utils/hierarchy.py:278-372 | a second application succeeds and changes nothing |
| `GeoNormalize.AnchorStays` | app/utils/hierarchy.py:344-365 | normalizing does not change what the record is anchored to |
| `GeoNormalize.BodyThenParents` | app/utils/hierarchy.py:329-360 | after the local body's levels are in, the area type has nothing to refuse or fill in |
| `StatusDurations.ReportDurations` | app/services/complaint_audit.py:505-532 | the pass computes seconds and entries of each status, listed by first entry, leaving out a last status that ends the ticket |
| `StatusDurations.ReportedTimeTelescopes` | app/services/complaint_audit.py:505-532 | summed over the report the seconds lie within one second per interval below the whole span, and the entries are the intervals |
| `StatusDurations.VisitCounts` | app/services/complaint_audit.py:83-86 | one visit adds its whole seconds and one entry to the status entered, and to no other |
| `StatusDurations.LeftOutExactly` | app/services/complaint_audit.py:511-520 | the last visit is left out exactly for a deleted ticket or a status that ends it |
| `StatusDurations.ReportedRow` | app/services/complaint_audit.py:523-532 | a row of the report has the status's code and what was counted for it |
| `StatusDurations.ListedByFirstEntry` | app/services/complaint_audit.py:523-530 | each status is listed once, before those entered later |
| `StatusDurations.GroupingLosesNothing` | app/services/complaint_audit.py:521-532 | grouped by status, no second and no entry is lost |
| `StatusDurations.Telescopes` | app/services/complaint_audit.py:83-86 | the intervals follow on and each loses less than a second |
| `WasteImages.CaptureImagesForCustomer` | app/utils/waste_images.py:66-80 | the images of the matching rows, in table order |
| `WasteImages.ShownExactly` | app/utils/waste_images.py:33-80 | one row is shown exactly when live, with an image, of the customer, and taken from the day before the date to the day after |
| `WasteImages.OverallWindow` | app/utils/waste_images.py:91-97 | covers the window of every date asked for, and is missing exactly when some date is |
| `WasteImages.ReadRows` | app/utils/waste_images.py:89-100 | the rows read once, split by customer, in order |
| `WasteImages.SplittingKeepsImages` | app/utils/waste_images.py:89-112 | neither narrowing the read nor splitting it loses or reorders an image |
| `WasteImages.PickImages` | app/utils/waste_images.py:105-112 | the images of one pair from its customer's rows |
| `WasteImages.CaptureImagesForCustomers` | app/utils/waste_images.py:83-113 | every pair with a customer gets exactly what the lookup for one returns, and no other pair is answered |

## Left out

- Columns of a trip that a full-row save of an old copy writes back: the status screen's cancellation carries the copy's remarks, and an edit its plan, date, status and remarks; the other columns, the deletion mark among them, are taken as unchanged.
- StaffHierarchy: a country column on staff records, which have none; the check for duplicate rows.
- Escalation: the choice of routing and SLA rule and the moment a level was reached are inputs; assignment and status histories and notices are absent. Closing after a verified clean-up is a status write and a clearing write in a row. Deletion is not a column of the model.
- Escalation.ComplaintTicket.SweepIfOverdue: the undisturbed visit, with the clearing write right after the lock; in runs the two are separate steps, and so is the query.
- Escalation.CheckAndEscalateOverdueTickets: likewise undisturbed; what happens between query and lock is said over runs, not in the loop.
- RetripDecision: creating a request, with the driver screen's look for a pending one; who decided, remarks and the texts sent. A notice counts as sent when its row is written.
- RetripCarryOver: the plan clone's expansion of area stops to customers and its ward filter are an arbitrary list; copied geography, the new trip's crew and log.
- BackgroundJob: polling and its time limits; a waiting web process is a call that arrives at any time. Exports, imports and signatures.
- CascadeDelete: actor columns are present or absent per model; relations through which a row is read again during the walk are fixed for its duration.
- PermissionSnapshot: names, labels and list order; reading live rows into keys; a failing write of an audit row.
- ServiceNotice: recipients, pushes, notice deletion, and the trimming of the explanation, which arrives trimmed. Two notice rows for one plan and date cannot exist. The other conditions under which the screens refuse a trip, a log or a stop.
- LoginSession: tokens from before session tracking and rows that do not exist, both accepted; cache expiry is an eviction at any time; other sessions do not interact.
- WasteBreakdown: decimal addition and subtraction are exact; the order of rows; a report's extra columns are one value.
- GeoNormalize: live related objects in place of ids; with ids that name no row, or masters that are not a tree, only the single local body is claimed.
- StatusDurations: the laws need a history sorted by time and a clock not behind it; names of statuses.
- WasteImages: URL building; daylight saving in the window; the fixed order among equal timestamps is the order of the table.
- Dashboards, map payloads, the permission catalog and its role defaults, the response cache, and the request plumbing.
- Message texts, display names and time zones.
