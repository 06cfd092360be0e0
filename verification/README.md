# GradSync service invariants

GradSync is a Django application for research groups. Several of its service modules are algorithms
or state machines over relational tables. This project models four clusters of them and proves what
every run keeps:

1. **Resources**: an interval allocator for bookings, a sweep that finds the safe minimum quantity,
   maintenance outages, and an append-only stock ledger.
2. **Calendar**: the dated grants of a group schedule's audience, the claim protocol of reminder
   scans, announcements of group events, the cursor codec and keyset paging.
3. **Notifications**: bounded e-mail retries, quiet hours, follow-up outcomes, reminders and
   escalation, and the policy that paces them.
4. **Research execution**: deliverable review and the derived milestone status, decision chains, the
   risk register, and the merged project event feed.

## How to read it

A table is a sequence of records (the primary key is the position) or a map. A transaction is one step:
a specification function gives the committed state or the reason for refusal, and a refused call changes
nothing. The hooks that deliverable review runs on commit are transactions of their own: `ReviewHooks`
takes them as separate steps, in any interleaving and with workers that die, and `ReviewFollowUps` takes
them together with their commit. Database unique and check constraints are part of the step. Services
that update records in place are classes whose methods carry the source's loops and assignments; each
method's postcondition is the specification function on the old state. The theorems are lemmas about
those functions, over every run. Modules named `…Effects` say, field by field and in the caller's terms,
what each call accepts and what it leaves behind.

Instants are integers counting microseconds, dates are day numbers, and text that services strip is
taken as already stripped. Clock readings, foreign rows and permission answers are parameters.

| files | what they hold |
|---|---|
| `results`, `sums`, `sequences`, `clock`, `numbering`, `ordering` | optional values, results, totals over sequences, cutting and sorting, lengths of time, revision numbers, places of milestones |
| `bookings`, `sweep`, `resource_item`, `booking_runs`, `booking_lifecycle`, `booking_effects`, `inventory_effects`, `stock_runs`, `maintenance_runs`, `resource_desk` | resources |
| `audience`, `grants`, `grant_histories`, `publication`, `grant_evidence`, `grant_table` | audience of a group schedule |
| `reminder_windows`, `reminder_scans`, `reminder_claims`, `group_events`, `event_cursor`, `cursor_format`, `event_pages` | reminders, announcements, event paging |
| `quiet_hours`, `delivery`, `delivery_runs`, `delivery_effects`, `outbox` | e-mail delivery |
| `outcomes`, `outcome_effects`, `outcome_desk`, `policies`, `follow_ups`, `follow_up_runs`, `follow_up_effects`, `follow_up_job` | follow-ups |
| `execution`, `execution_runs`, `review_effects`, `execution_board`, `review_follow_ups`, `review_hooks` | deliverables, milestones, and the follow-ups review leaves open |
| `decisions`, `decision_effects`, `risks`, `risk_effects`, `event_feed` | decisions, risk register, project feed |

## What the code does that one might not expect

Each point is a lemma with the exact condition, a concrete state, or both.

- Lowering a resource's quantity is checked against the number of overlapping bookings, not their
  units, so an accepted change can overbook (`BookingRuns.LoweringKeepsUnitsIff`,
  `BookingRuns.LoweringCanOverbook`).
- Returning a booking at the very instant it starts passes the service's window test and is rejected
  by the end-after-start constraint (`BookingLifecycle.ReturnSucceedsIff`).
- A manual status edit can declare a resource available during a hard outage
  (`MaintenanceRuns.ManualEditKeepsOutagesIff`, `MaintenanceRuns.ManualEditHidesOutage`).
- A request for more units than the whole resource is told the total as available, although other
  bookings may hold part of it (`BookingEffects.CapacityReport`).
- A booking that is cancelled, rejected or completed can still be changed before its start
  (`BookingEffects.ChangesIff`).
- Completing a maintenance record, or cancelling one that takes the resource offline, can make
  equipment available although its calibration is overdue
  (`MaintenanceRuns.TransitionHidesCalibrationIff`, `MaintenanceRuns.TransitionsCanHideCalibration`).
- Publishing a group schedule grants members whose account is suspended; re-resolution does not
  (`Publication.PublicationIsFirstRoundIff`, `Publication.SuspendedMemberIsGranted`).
- Audience resolutions that share an instant leave a departed recipient a grant that is valid at that
  instant, even after a further round that ends nothing (`GrantHistories.StaysOnlyWhenInstantsRepeat`,
  `GrantHistories.RoundAnswersItsInstantIff`, `GrantHistories.SameInstantLeavesAGrant`,
  `GrantHistories.EndedGrantStillAnswers`).
- A reminder scan looks at the first 500 items of an unordered query, so with more items any of them may
  be left out (`ReminderScans.AlwaysReachedIff`).
- An item may be saved with a recurrence of 731 days, which expansion refuses unless a leap day falls in
  it; a scan that comes to a refused item ends there (`ReminderScans.SavedButRefusedIff`,
  `ReminderScans.RefusedFirstStopsAll`).
- A reminder claim whose worker dies before creating the notification is never taken up again
  (`ReminderClaims.AbandonedStaysSilent`, `ReminderClaims.ClaimsCanBeAbandoned`).
- Someone removed from an audience twice at one item version hears of it once
  (`GroupEvents.SecondRemovalIsSilent`).
- Quiet hours are looked at when a notification is enqueued and never again: a retry, or a first
  sweep that comes late, mails inside them (`DeliveryRuns.MailedQuietlyIff`,
  `DeliveryRuns.RetryMailedInQuietHours`, `DeliveryRuns.LateSweepMailsInQuietHours`).
- A worker killed between counting a refusal and recording it on the attempt leaves that attempt
  QUEUED for good (`DeliveryRuns.AttemptsAreContiguous`, `DeliveryRuns.CountedForGood`,
  `DeliveryRuns.AttemptLeftQueued`).
- The scheduled follow-up sweep names an event that no registered resolver answers to, so it never
  completes anything (`FollowUpRuns.SweepsCompleteNothing`), and a full batch of open follow-ups
  starves every later one (`FollowUpRuns.StarvedBehindABatch`, `FollowUpRuns.SecondOfTwoStarves`).
- A risk transition without a retry key never does anything, because raising a risk records the
  blank key (`Risks.EmptyKeyNeverMoves`).
- Triage of a closed risk opens it and leaves the closing time and rationale in place
  (`Risks.ClosingTimeOutlivesClosure`, `Risks.TriageKeepsClosingTime`).
- Mitigation may be started on a closed risk, which opens it with its closing time and rationale in place
  (`RiskEffects.MitigationOpensClosed`).
- A project feed that was cut off is not resumed: going on from the newest event skips the ones left out
  (`EventFeed.CutOffIsNeverPolled`).
- A recommendation made after the final decision opens a follow-up that deciding again does not
  close (`ReviewFollowUps.LateRecommendationStaysOpen`).
- The on_commit hooks of a recommendation that run after those of the decision ask the advisor to decide
  what is decided; a worker that dies before its hooks leaves a follow-up open on a decided revision, or
  nobody asked (`ReviewHooks.OpenAfterDecision`, `ReviewHooks.DecisionClosesIff`,
  `ReviewHooks.OvertakenHookReopens`, `ReviewHooks.KilledHookLeavesItOpen`,
  `ReviewHooks.KilledHookAsksNobody`).
- The place computed for a new milestone or deliverable is zero again when the largest so far is zero, and
  the unique constraint rejects it: through these services a project gets one milestone, and a milestone
  one deliverable (`Numbering.NextPlaceIsFreeIff`, `Ordering.OneMilestonePerProject`,
  `ReviewEffects.OneDeliverablePerMilestone`).
- A work-status update moves an accepted deliverable back to work and keeps its accepted revision
  (`ExecutionRuns.AcceptedRevisionMayOutliveStatus`).

## Model

| member | source | states |
|---|---|---|
| Sweep.SafeMinimumQuantity | backend/apps/resources/services.py:393-406 | for any storable bookings the sweep returns max(1, p), where p is the largest number of live bookings that hold the resource at one instant, over all instants |
| Sweep.CollectEvents | backend/apps/resources/services.py:396-401 | the first loop appends a +1 event at each live booking's start and a -1 event at its end |
| Sequences.SortOrdered | backend/apps/resources/services.py:402-405 | sorting by a total order puts no row after a later one and loses none |
| Sweep.SortedEvents | backend/apps/resources/services.py:402-405 | sorting by (time, delta) keeps the events, in time order and with ends before starts at equal instants |
| Sweep.EventsCount | backend/apps/resources/services.py:396-405 | the deltas up to an instant add up to the number of bookings that hold it, and the ends at that instant never outweigh what came before |
| Sweep.SweepStep | backend/apps/resources/services.py:402-406 | while the sweep runs, the running total is never negative, and where it grows it does not pass the true count |
| Sweep.SafeMinimumIsLeast | backend/apps/resources/services.py:393-406 | a quantity is at least the safe minimum exactly when it is positive and covers the number of live bookings at every instant |
| Bookings.WindowBoundsLoad | backend/apps/resources/services.py:856-873 | the quantities of all bookings that overlap a window bound the units held at each instant in it |
| Bookings.LoadPeaksAtAStart | backend/apps/resources/services.py:393-406 | the load at any instant is reached or exceeded at the start of some live booking |
| BookingRuns.StepKeepsBookings | backend/apps/resources/services.py:875-1102 | every service call keeps at most totalQuantity live bookings at every instant, and every call that does not lower the total keeps the unit bound too |
| BookingRuns.CompleteKeeps | backend/apps/resources/services.py:91-106 | finishing ended bookings keeps both bounds and changes only ended confirmed ones |
| BookingRuns.CapacityNeverExceeded | backend/apps/resources/services.py:335-347 | over every run from creation, at every instant at most totalQuantity live bookings hold the resource |
| BookingRuns.UnitsNeverExceeded | backend/apps/resources/services.py:807-873 | over every run in which no call lowers the total, the units held at any instant never exceed it |
| BookingRuns.LoweringKeepsUnitsIff | backend/apps/resources/services.py:335-347 | an accepted edit keeps the unit bound exactly when the new total covers the units held at each live booking's start |
| BookingRuns.LoweringCanOverbook | backend/apps/resources/services.py:335-347 | a total lowered from five to one under one booking of five units is accepted and overbooked |
| BookingLifecycle.StepContinues | backend/apps/resources/services.py:875-1102 | no call deletes a booking or hands it over; each moves its status along the allowed transitions, and a booking has a completion time exactly when completed |
| BookingLifecycle.BookingsOnlyMoveForward | backend/apps/resources/services.py:875-1102 | over every run statuses only move forward, and what is rejected, cancelled or completed stays so |
| BookingLifecycle.OnlyApprovalConfirms | backend/apps/resources/services.py:1040-1102 | a pending booking becomes confirmed exactly by a manager's approval while the resource is available, calibrated, not under maintenance and has the units left |
| BookingLifecycle.ReturnSucceedsIff | backend/apps/resources/services.py:999-1038 | a live booking can be returned exactly strictly between its start and end; at the very start the constraint rejects it |
| BookingLifecycle.ReleaseTakesLoad | backend/apps/resources/services.py:962-1038 | cancelling or returning takes exactly that booking's load away, at every instant |
| BookingLifecycle.CancelUndoesBooking | backend/apps/resources/services.py:875-997 | cancelling what was just booked restores the load at every instant |
| BookingEffects.OverlapsIff | backend/apps/resources/services.py:856-861 | a live booking overlaps a window exactly when it covers an instant of it |
| BookingEffects.BlocksIff | backend/apps/resources/services.py:833-847 | an open offline record blocks a window exactly when it spans an instant of it, or, if it ends where it starts, lies strictly inside |
| BookingEffects.UsedGrows | backend/apps/resources/services.py:856-864 | what is used of a window starts at nothing and grows by a booking's quantity exactly when it covers an instant of the window |
| BookingEffects.UsedByOthers | backend/apps/resources/services.py:862-864 | what the others use leaves the changed booking itself out |
| BookingEffects.CapacityReport | backend/apps/resources/services.py:848-873 | the available quantity that a refusal reports is exactly what would have been granted, unless more was asked for than the whole resource while part of it is taken |
| BookingEffects.BooksIff | backend/apps/resources/services.py:875-924 | a booking is accepted exactly from an active account, for a positive quantity and a window that lies ahead (for staff, that has not ended), while the resource has room |
| BookingEffects.BookingIsRecorded | backend/apps/resources/services.py:890-912 | the new row holds what was asked for; it is pending exactly for an active student's booking of an approval item and confirmed otherwise, and adds its units all through its window or not at all |
| BookingEffects.ChangesIff | backend/apps/resources/services.py:926-960 | who may change a booking to what; only a booking that holds units needs room, and the status is not looked at |
| BookingEffects.ChangeIsRecorded | backend/apps/resources/services.py:926-960 | what is not given stays; the load moves from the old window and quantity to the new |
| BookingEffects.DecidesIff | backend/apps/resources/services.py:1040-1102 | a manager decides a pending booking, and approves it exactly while there is room |
| BookingEffects.DecisionIsRecorded | backend/apps/resources/services.py:1040-1102 | approval confirms the booking and adds its units all through its window; rejection rejects it and adds nothing |
| BookingEffects.CancelsIff | backend/apps/resources/services.py:962-997 | who may give up which booking |
| BookingEffects.ReleaseIsRecorded | backend/apps/resources/services.py:962-1038 | a cancelled booking keeps its window, a returned one ends and completes now, and nothing else changes |
| BookingEffects.EndedAreCompleted | backend/apps/resources/services.py:91-106 | the job completes exactly the ended bookings that hold units, stamped now, and no later instant changes its load |
| InventoryEffects.EditsIff | backend/apps/resources/services.py:304-391 | an inventory edit is stored exactly under the checks on version, total against the count at every instant, kind and resulting record |
| InventoryEffects.EditIsRecorded | backend/apps/resources/services.py:304-391 | named fields take the values given, the others stay, one version later |
| InventoryEffects.CommitmentReport | backend/apps/resources/services.py:335-347 | a refused total is told the least total that would have been accepted |
| InventoryEffects.RetiresAndUses | backend/apps/resources/services.py:408-498 | who may retire a resource or submit a use of it, and what that writes |
| InventoryEffects.CreationIsRecorded | backend/apps/resources/services.py:223-302 | which resources may be created, and that they start without history but for the opening row and alert of stocked goods |
| InventoryEffects.OutageIsActive | backend/apps/resources/services.py:641-657 | another outage is found exactly when another open offline record is a fault, under way, or due to have started |
| InventoryEffects.OpeningIsRecorded | backend/apps/resources/services.py:544-594 | a new record is scheduled, and takes the resource out of use at once exactly when it is active now |
| InventoryEffects.MovesIff | backend/apps/resources/services.py:596-616 | a manager moves an open record on, never back to scheduled |
| InventoryEffects.MoveIsRecorded | backend/apps/resources/services.py:596-684 | what starting, completing and cancelling a record do to status, version and next calibration, which a completed calibration sets an interval of days ahead |
| InventoryEffects.ReconcileIsRecorded | backend/apps/resources/services.py:150-208 | available equipment goes out of use, one version later, exactly for an active record or an overdue calibration |
| InventoryEffects.StocksIff | backend/apps/resources/services.py:700-722 | receipts add, issues take, adjustments do either, never nothing and never more than there is |
| InventoryEffects.StockIsRecorded | backend/apps/resources/services.py:722-760 | the new ledger row, the stock after it, and the alert when it falls to the level from above |
| InventoryEffects.StockReport | backend/apps/resources/services.py:714-721 | a refusal for want of stock names what there is and what was asked for |
| ResourceDesk.Resource.SumOverlapping | backend/apps/resources/services.py:856-864 | the aggregate over overlapping live bookings other than the one being changed |
| ResourceDesk.Resource.MaintenanceBlocks | backend/apps/resources/services.py:833-847 | finds an open offline record that overlaps the window if and only if there is one |
| ResourceDesk.Resource.AssertCapacity | backend/apps/resources/services.py:807-873 | refuses a window for exactly the reasons of the capacity rule, in its order |
| ResourceDesk.Resource.Book | backend/apps/resources/services.py:875-924 | commits or refuses as the booking rule says; students' bookings of approval items stay pending |
| ResourceDesk.Resource.CheckChange | backend/apps/resources/services.py:937-944 | who may still change a booking, with the first refusal that applies |
| ResourceDesk.Resource.Rebook | backend/apps/resources/services.py:926-960 | changes a booking within the capacity left by the others, and nothing else |
| ResourceDesk.Resource.Cancel | backend/apps/resources/services.py:962-997 | cancels a booking that has not started |
| ResourceDesk.Resource.Return | backend/apps/resources/services.py:999-1038 | ends a running booking now; a return at the very start instant is rejected by the end-after-start constraint |
| ResourceDesk.Resource.Decide | backend/apps/resources/services.py:1040-1102 | grants a pending booking only if its window still fits, or rejects it |
| ResourceDesk.Resource.FinishEnded | backend/apps/resources/services.py:91-106 | finishes exactly the ended bookings and counts them |
| ResourceDesk.Resource.CheckTotal | backend/apps/resources/services.py:335-347 | a requested total must be positive and not below the sweep's safe minimum |
| ResourceDesk.Resource.IsClean | backend/apps/resources/services.py:384-391 | the edited record passes its field checks if and only if it is found clean |
| ResourceDesk.Resource.Assign | backend/apps/resources/services.py:347-385 | the fields after the edit, one version later |
| ResourceDesk.Resource.Save | backend/apps/resources/services.py:384-391 | an edit is stored whole if the record stays clean and not at all otherwise |
| ResourceDesk.Resource.Edit | backend/apps/resources/services.py:304-391 | the inventory edit with all its refusals |
| ResourceDesk.Resource.TakeOffline | backend/apps/resources/services.py:544-594 | available equipment goes into maintenance, and nothing else changes status |
| ResourceDesk.Resource.OpenMaintenance | backend/apps/resources/services.py:544-594 | records maintenance and takes the resource offline when the record is active now |
| ResourceDesk.Resource.OutageFound | backend/apps/resources/services.py:596-684 | another record keeps the resource out of use now if and only if it is found |
| ResourceDesk.Resource.MoveMaintenance | backend/apps/resources/services.py:596-684 | moves a record along its allowed transitions and restores availability only when no other outage remains |
| ResourceDesk.Resource.Reconcile | backend/apps/resources/services.py:150-208 | the reconcile job's effect on one resource |
| ResourceDesk.Resource.Stock | backend/apps/resources/services.py:686-760 | appends one ledger row and moves the stock by its delta, or refuses |
| StockRuns.StepKeepsLedger | backend/apps/resources/services.py:686-760 | every call keeps the ledger append-only, each balance the running sum and never negative, and stock minus deltas unchanged |
| StockRuns.StockIsConserved | backend/apps/resources/services.py:271-298 | over every run stock minus ledger deltas is what it was at creation: zero for goods created as consumables |
| StockRuns.StepKeepsKinds | backend/apps/resources/services.py:357-378 | consumables never get bookings, maintenance or use submissions, equipment never gets ledger rows |
| StockRuns.OneRoundPerCrossing | backend/apps/resources/services.py:748-759 | with a fixed reorder level, low-stock alerts are sent at the ledger's downward crossings of the level and nowhere else |
| StockRuns.RoundsAreSeparated | backend/apps/resources/services.py:748-759 | between two alert rounds the balance was above the level |
| MaintenanceRuns.StepKeepsOutages | backend/apps/resources/services.py:544-684 | no call but a manual status edit makes a resource available while it has an in-progress or open-fault offline record |
| MaintenanceRuns.OutagesNeverHidden | backend/apps/resources/services.py:544-684 | the same over every run without manual edits; retirement is never left |
| MaintenanceRuns.ManualEditKeepsOutagesIff | backend/apps/resources/services.py:304-391 | a manual edit breaks the rule exactly when it declares such a resource available |
| MaintenanceRuns.ManualEditHidesOutage | backend/apps/resources/services.py:304-391 | a run from creation in which a manager declares equipment available during an open offline fault |
| MaintenanceRuns.ReconciledIsUsable | backend/apps/resources/services.py:150-208 | right after reconcile no available equipment has an outage now or a calibration due; a second reconcile changes nothing |
| MaintenanceRuns.RecordsStay | backend/apps/resources/services.py:544-684 | over every run maintenance records are never replanned or set back, and closed ones stay as they are |
| MaintenanceRuns.TransitionEffect | backend/apps/resources/services.py:596-684 | when an accepted transition leaves the resource available, and when it leaves its calibration overdue, in terms of the state before |
| MaintenanceRuns.TransitionHidesCalibrationIff | backend/apps/resources/services.py:596-684 | in every reachable state an accepted transition leaves available equipment with an overdue calibration exactly when it was overdue, no new calibration is recorded, and the resource was open or is reopened by completing or by cancelling an offline record |
| MaintenanceRuns.CalibratingClears | backend/apps/resources/services.py:622-628 | completing a calibration of a resource with an interval always clears the overdue calibration |
| MaintenanceRuns.TransitionsCanHideCalibration | backend/apps/resources/services.py:596-684 | runs from creation in which completing, and cancelling, a repair does so until the next reconcile |
| Audience.ReadMemberships | backend/apps/schedules/audience_services.py:170-181 | the first loop collects exactly the active members with active accounts of the selected projects, with the projects as evidence |
| Audience.ReadAccounts | backend/apps/schedules/audience_services.py:163-185 | the second loop adds exactly the selected active accounts other than the owner's |
| Audience.GatheredResolves | backend/apps/schedules/audience_services.py:158-185 | the evidence names exactly the audience, with exact sources for each recipient |
| Audience.GatherEvidence | backend/apps/schedules/audience_services.py:158-185 | both loops together build that evidence, in the order they meet the recipients |
| Grants.OneOpenAfter | backend/apps/schedules/audience_services.py:187-232 | re-resolution keeps at most one open grant per recipient |
| Grants.OpenIsResolved | backend/apps/schedules/audience_services.py:187-232 | afterwards a recipient has an open grant if and only if the resolution names them |
| Grants.ClosedNeverChange | backend/apps/schedules/audience_services.py:187-232 | closed grants stay as they are, and no grant changes recipient or start |
| GrantHistories.ReplayIsDated | backend/apps/schedules/audience_services.py:153-232 | over rounds at increasing times each recipient's grants are non-empty, disjoint and in order |
| GrantHistories.AsOfAgrees | backend/apps/schedules/permissions.py:19-27 | over rounds at increasing times, holding a grant at t means belonging to the audience resolved last at or before t |
| GrantHistories.AsOfIsTheAudience | backend/apps/schedules/permissions.py:19-27 | with the worlds that re-resolutions at increasing times were computed from: a grant at t means membership of that world's audience |
| GrantHistories.RepeatChangesNothing | backend/apps/schedules/audience_services.py:153-232 | repeating a re-resolution adds no grant, ends none and rewrites only the time of checking |
| GrantHistories.StartsWhenGranted | backend/apps/schedules/audience_services.py:203-226 | over any history a grant starts at t exactly when a round at t names a recipient whom the round before did not |
| GrantHistories.AsOfExactly | backend/apps/schedules/permissions.py:19-27 | over every history in time order, repeated instants included, a grant at t means belonging to the audience resolved last at or before t, or having been let in by a round at t |
| GrantHistories.StaysOnlyWhenInstantsRepeat | backend/apps/schedules/audience_services.py:195-202 | a recipient outside the audience of t holds a grant at t exactly when one round at t let them in and a later round at the same t left them out |
| GrantHistories.RoundAnswersItsInstantIff | backend/apps/schedules/audience_services.py:195-202 | after every history in time order, one more round answers at its own instant exactly when every departing recipient's open grant started strictly earlier and no closed grant of a recipient it leaves out is valid then |
| GrantHistories.EndedGrantStillAnswers | backend/apps/schedules/audience_services.py:195-202 | after rounds with one recipient and with nobody, a third round with nobody at the same instant ends nothing and still answers for the recipient |
| GrantHistories.SameInstantLeavesAGrant | backend/apps/schedules/audience_services.py:195-202 | two rounds at one instant can leave a removed recipient a valid grant |
| Publication.PublicationIsFirstRoundIff | backend/apps/schedules/audience_services.py:108-143 | publishing a fresh item grants what a first re-resolution would exactly when no active member of a selected project and no selected account counts on one side only (actor against owner, suspended accounts) |
| Publication.OwnersPublicationIff | backend/apps/schedules/audience_services.py:108-143 | published by the owner, the two agree exactly when every other active member of the selected projects has an active account |
| Publication.AnnouncedIsPublication | backend/apps/schedules/audience_services.py:108-127 | publication's two loops name exactly the selected accounts and active members other than the actor |
| Publication.PublishedAsOf | backend/apps/schedules/permissions.py:19-27 | until the first re-resolution a grant means having been published to, from then on membership of the audience of the latest round |
| Publication.SuspendedMemberIsGranted | backend/apps/schedules/audience_services.py:109-112 | a suspended member of a selected project belongs to no audience, is granted by publication, and keeps the grant until the next round |
| Publication.SuspendedMemberExample | backend/apps/schedules/audience_services.py:109-112 | a concrete member for whom publication and a first re-resolution differ |
| GrantEvidence.RoundShowsWorld | backend/apps/schedules/audience_services.py:168-226 | after a round every open grant has exactly the projects and types that the memberships and accounts of that moment give its recipient, resolved now, whatever it showed before |
| GrantEvidence.OpenGrantsShowLatest | backend/apps/schedules/audience_services.py:153-232 | over every history open grants show the world of the latest round |
| GrantEvidence.RoundOfRows | backend/apps/schedules/audience_services.py:188-226 | which rows a round ends, and when, which stay open, and that newcomers start now |
| GrantEvidence.AnnouncedShows | backend/apps/schedules/audience_services.py:108-127 | the evidence of publication: the selected projects in which the recipient is an active member, and whether the account was selected |
| GrantEvidence.PublicationOfRows | backend/apps/schedules/audience_services.py:129-143 | publication refreshes the open grant of everyone it names, appends one for each who has none, and leaves every other row alone |
| GrantEvidence.PublishesIff | backend/apps/schedules/audience_services.py:71-93 | a publication goes through exactly for a permitted actor, a group schedule and a non-empty, eligible selection; a refusal says what fails |
| GrantEvidence.PublishedRowsAreTheSelection | backend/apps/schedules/audience_services.py:75-107 | its audience rows are the selection, each project and account once |
| GrantTables.PublishedMembers | backend/apps/schedules/audience_services.py:108-120 | publication's first loop, with its own rule of who counts |
| GrantTables.GrantTable.FindOpen | backend/apps/schedules/audience_services.py:131-134 | the recipient's open grant is found if and only if there is one |
| GrantTables.GrantTable.GrantAll | backend/apps/schedules/audience_services.py:130-143 | each recipient's open grant is refreshed in place or created |
| GrantTables.GrantTable.Publish | backend/apps/schedules/audience_services.py:71-150 | the whole of publication: its refusals, the audience rows and the grants |
| GrantTables.OpenByRecipient | backend/apps/schedules/audience_services.py:187-192 | the dictionary of open grants is exact |
| GrantTables.GrantTable.EndDeparted | backend/apps/schedules/audience_services.py:193-202 | the first pass ends exactly the open grants of recipients who left, and counts them |
| GrantTables.GrantTable.RefreshOrAdd | backend/apps/schedules/audience_services.py:203-226 | the second pass refreshes the open grant of each recipient or appends a new one |
| GrantTables.GrantTable.Reresolve | backend/apps/schedules/audience_services.py:153-232 | the whole service: open grants afterwards are those of the audience with exactly its evidence, resolved now; the counts are those of rows added, grants ended and recipients; personal items are untouched |
| ReminderWindows.Expand | backend/apps/schedules/recurrence.py:23-77 | the occurrences of a given series that overlap the window, or a refusal past the limit |
| ReminderWindows.ExpandedIff | backend/apps/schedules/recurrence.py:60-77 | the expansion lists, for each start, the occurrence that lasts from it for the duration, exactly when it shares an instant with the window |
| ReminderWindows.ScanSeries | backend/apps/schedules/reminder_services.py:276-327 | the occurrence loop for one item and offset selects the due, unclosed occurrences in order |
| ReminderWindows.SelectedExactly | backend/apps/schedules/reminder_services.py:277-307 | pre-filter and due test together select exactly the starts in [now + offset - 5 min, now + offset + 5 min) |
| ReminderWindows.SelectedIncreasing | backend/apps/schedules/recurrence.py:70-75 | one scan never selects an occurrence twice |
| ReminderWindows.CoverageIffGapsFit | backend/apps/schedules/reminder_services.py:277-307 | ordered scans cover every instant of their span exactly when no gap exceeds ten minutes |
| ReminderWindows.EveryOccurrenceSelected | backend/apps/schedules/reminder_services.py:276-327 | with such gaps every unclosed occurrence due in the span is selected by some scan of its item |
| ReminderScans.SavedButRefusedIff | backend/apps/schedules/recurrence.py:40-58 | an item can be saved and is then refused by expansion exactly when it recurs for 731 days without a leap day |
| ReminderScans.ScanItem | backend/apps/schedules/reminder_services.py:276-327 | the loop over one item's reminders: their due occurrences, or the refusal of the series |
| ReminderScans.ScanItems | backend/apps/schedules/reminder_services.py:253-327 | the whole scan: the items of the cut up to the first refused one, and whether it failed |
| ReminderScans.HitIff | backend/apps/schedules/reminder_services.py:253-327 | a scan picks up an occurrence for a reminder exactly when the item is within the cut, neither it nor an item before it is refused, and the occurrence is open and due in the scan's ten minutes |
| ReminderScans.PickedUpIff | backend/apps/schedules/reminder_services.py:253-327 | over any scans an open occurrence is picked up exactly by those that reach its item while it is due |
| ReminderScans.ReachedItemsAreCovered | backend/apps/schedules/reminder_services.py:253-327 | scans at most ten minutes apart that all reach an item miss none of its occurrences due in their span |
| ReminderScans.AlwaysReachedIff | backend/apps/schedules/reminder_services.py:256-268 | whatever the order of the rows an item is reached, if and only if there are no more items than the limit |
| ReminderScans.RefusedFirstStopsAll | backend/apps/schedules/reminder_services.py:283-295 | a refused series in the first row leaves every item of the scan out |
| ReminderClaims.DispatchTable.Claim | backend/apps/schedules/reminder_services.py:338-349 | claims a reminder if and only if no dispatch row exists for it |
| ReminderClaims.DispatchTable.CreateReminders | backend/apps/schedules/reminder_services.py:27-179 | one notification per claim, each paired with its in-app row, and the missing e-mail rows |
| ReminderClaims.ReachableIsLinked | backend/apps/schedules/reminder_services.py:155-178 | under any interleaving and any crash, CREATED rows and notifications point at each other and the e-mail row exists exactly beside them |
| ReminderClaims.AtMostOneNotification | backend/apps/schedules/models.py:361-374 | at most one notification is ever created per item, recipient, occurrence and offset |
| ReminderClaims.AbandonedStaysSilent | backend/apps/schedules/reminder_services.py:338-359 | a claim abandoned in a crash is never notified in any continuation |
| ReminderClaims.ClaimsCanBeAbandoned | backend/apps/schedules/reminder_services.py:338-359 | for every reminder, a run in which a worker claims it and dies, and nothing later notifies it |
| ReminderClaims.NotifiedOnceForAll | backend/apps/schedules/reminder_services.py:338-359 | a created notification is never replaced |
| ReminderClaims.CommitIsRecorded | backend/apps/schedules/reminder_services.py:27-179 | a commit turns the worker's claims, in order, into notifications with a CREATED in-app row and a CLAIMED e-mail row each |
| ReminderClaims.CommitLeavesOthers | backend/apps/schedules/reminder_services.py:27-179 | no other row changes |
| ReminderClaims.ClaimsAndDeliveries | backend/apps/schedules/reminder_services.py:338-349 | a claim writes one CLAIMED row where there was none; a delivery copies its status to the e-mail row of its notification and nothing else |
| GroupEvents.Board.AnnounceTo | backend/apps/schedules/reminder_services.py:209-248 | one recipient: claim, notify, link, and the e-mail row of a cancellation |
| GroupEvents.Board.DispatchEvent | backend/apps/schedules/reminder_services.py:182-250 | the loop over recipients, with the number of announcements made |
| GroupEvents.RunsAreLinked | backend/apps/schedules/reminder_services.py:182-250 | in every reachable table announcements and in-app rows point at each other, and e-mail rows stand beside cancellations only |
| GroupEvents.AnnouncedOnce | backend/apps/schedules/models.py:361-374 | nobody hears twice of the same kind of event at one item version |
| GroupEvents.AnnouncesIff | backend/apps/schedules/reminder_services.py:208-218 | a call announces to a listed recipient exactly when no earlier call did for this version and kind |
| GroupEvents.SecondRemovalIsSilent | backend/apps/schedules/audience_services.py:228-231 | a second removal at the same item version announces nothing |
| GroupEvents.OnlyCancellationsAreMailed | backend/apps/schedules/reminder_services.py:189-193 | publications, changes and removals are never handed to the mail server, whatever sweeps run later |
| EventCursor.DecodeEncode | backend/apps/schedules/event_services.py:9-20 | base64url decoding undoes encoding on every byte string |
| CursorFormat.AlphabetIs | backend/apps/schedules/event_services.py:9-11 | sextets are written as upper-case letters, lower-case letters, digits, minus and underscore, and each is read back from its character alone |
| CursorFormat.GroupIsTheNumber | backend/apps/schedules/event_services.py:9-11 | three bytes and the four characters that stand for them are the same number |
| CursorFormat.LastGroupIsTheNumber | backend/apps/schedules/event_services.py:9-11 | a last group of one or two bytes is filled with zero bits and padded to four characters |
| CursorFormat.EncodedLength | backend/apps/schedules/event_services.py:9-11 | the text has four characters for every three bytes begun |
| CursorFormat.CursorExample | backend/apps/schedules/event_services.py:9-11 | a whole cursor, character by character |
| EventCursor.PadStrip | backend/apps/schedules/event_services.py:9-20 | re-padding by the length modulo four restores the stripped text for every payload |
| EventCursor.ParseOfRender | backend/apps/schedules/event_services.py:9-20 | the two-element JSON payload is read back unchanged |
| EventCursor.CursorRoundTrip | backend/apps/schedules/event_services.py:9-20 | decoding an encoded cursor gives the timestamp text and the id |
| EventPages.CursorsAreFaithful | backend/apps/schedules/event_services.py:9-20 | if timestamps survive being rendered and read, every row survives its cursor |
| EventPages.PageContinues | backend/apps/schedules/event_services.py:31-45 | asking with the cursor of the k-th row gives the rows after it, with no gap and no repeat |
| EventPages.WalkVisitsEverythingOnce | backend/apps/schedules/event_services.py:31-45 | following last cursors yields every visible event once, in order, and ends |
| QuietHours.QuietIff | backend/apps/notifications/policy_services.py:103-112 | an instant is quiet exactly when it lies in the window of some local day, which runs into the next day when its end is the smaller time; the start is quiet, the end is not |
| QuietHours.FirstUnquietInstant | backend/apps/notifications/policy_services.py:98-120 | the answer is the first instant from the candidate on outside quiet hours, also for windows past midnight |
| QuietHours.EligibleIdempotent | backend/apps/notifications/policy_services.py:98-120 | asking again changes nothing |
| QuietHours.EligibleMonotone | backend/apps/notifications/policy_services.py:98-120 | later candidates never get earlier answers |
| Outboxes.Outbox.Enqueue | backend/apps/notifications/services.py:98-211 | the new row, its first attempt, and the eligibility held back by quiet hours |
| Outboxes.Outbox.MarkStatus | backend/apps/notifications/services.py:27-53 | status and timestamps of the row, then of its current attempt, unless the worker is killed in between |
| Outboxes.Outbox.MarkAttemptFailed | backend/apps/notifications/services.py:56-95 | counts the refusal and makes the row eligible five minutes later, then fails its attempt, unless the worker is killed in between |
| Outboxes.Outbox.Handle | backend/apps/notifications/tasks.py:160-189 | marks, hands over and records, up to the write after which the worker is killed, if it is |
| Outboxes.Outbox.SelectDue | backend/apps/notifications/tasks.py:132-139 | the newest due rows, newest first, up to the limit |
| Outboxes.Outbox.DeliverOne | backend/apps/notifications/tasks.py:140-191 | one pass of the loop: skip, or attempt and record what the mail server did |
| Outboxes.Outbox.DeliverDue | backend/apps/notifications/tasks.py:129-191 | the whole sweep, also when the worker is killed after any of its writes, with the number taken |
| Outboxes.Outbox.SendAtOnce | backend/apps/accounts/services.py:223-251 | mail sent while it is created, with an unconditional retry after a refusal |
| Delivery.SelectedAreDue | backend/apps/notifications/tasks.py:132-139 | a sweep picks only due notifications, at most `limit` of them |
| DeliveryEffects.EnqueuedReads | backend/apps/notifications/services.py:98-211 | what a new notification reads, by policy, security and preference |
| DeliveryEffects.InsertedReads | backend/apps/notifications/tasks.py:41-126 | what a directly inserted reminder reads |
| DeliveryEffects.CreationAppends | backend/apps/notifications/services.py:98-211 | creating a notification adds one row and leaves the others alone |
| DeliveryEffects.TakenIsRecorded | backend/apps/notifications/tasks.py:162-170 | mail taken reads SENT on the row and its attempt |
| DeliveryEffects.RefusedIsRecorded | backend/apps/notifications/tasks.py:171-184 | a refusal is counted, fails its attempt and is due again in five minutes, or failed for good at the fifth |
| DeliveryEffects.SkippedIsRecorded | backend/apps/notifications/tasks.py:141-155 | mail not to be sent any more is skipped, and so is its attempt if it has one |
| DeliveryEffects.KilledIsRecorded | backend/apps/notifications/services.py:27-95 | what a worker leaves behind that dies after each write |
| DeliveryEffects.SentAtOnceRetries | backend/apps/notifications/services.py:66-70 | mail sent while it is created always asks for a retry after a refusal, and is otherwise handled alike |
| DeliveryEffects.SelectedIff | backend/apps/notifications/tasks.py:132-139 | a row is selected exactly when its mail waits, its time has come and fewer newer such rows exist than the limit allows |
| DeliveryEffects.SweepDelivers | backend/apps/notifications/tasks.py:129-191 | a sweep in which no worker dies delivers exactly those rows and leaves every other as it is |
| DeliveryRuns.SelectedDescending | backend/apps/notifications/tasks.py:132-139 | each at most once, newest first |
| DeliveryRuns.SelectedNewest | backend/apps/notifications/tasks.py:132-139 | a due notification is left out only when newer ones use up the limit |
| DeliveryRuns.DeliveredIsSound | backend/apps/notifications/tasks.py:140-191 | one delivery keeps attempts, tries and status in step |
| DeliveryRuns.OthersUntouched | backend/apps/notifications/tasks.py:140-191 | a sweep reaches only the notifications it selected |
| DeliveryRuns.RunsAreSound | backend/apps/notifications/services.py:27-95 | every sequential run keeps status, retry count, attempts and what the mail server saw in step |
| DeliveryRuns.AttemptsAreContiguous | backend/apps/notifications/services.py:56-95 | over every run attempt numbers are 1..m with m the retry count or one more; the first retry-count tries were refused, and their attempts read FAILED when the refusal was recorded to the end and QUEUED otherwise |
| DeliveryRuns.CountedForGood | backend/apps/notifications/services.py:56-95 | the attempt of a counted refusal is never written again, whatever runs later |
| DeliveryRuns.AttemptLeftQueued | backend/apps/notifications/services.py:56-95 | a run in which a counted refusal leaves its attempt QUEUED |
| DeliveryRuns.AtMostFiveTries | backend/apps/notifications/tasks.py:171-184 | at most five tries, each retry at least five minutes after the refusal before it; SENT exactly when the last try was taken, FAILED exactly when five were refused |
| DeliveryRuns.SettledForGood | backend/apps/notifications/tasks.py:132-139 | a sent, skipped, failed, in-app-only or stranded notification is never touched again |
| DeliveryRuns.MailWaitsOutQuietHours | backend/apps/notifications/services.py:180-210 | mail that can wait is never sent before the recipient's first instant outside quiet hours |
| DeliveryRuns.MailedQuietlyIff | backend/apps/notifications/tasks.py:132-165 | over every run mail for a notification goes out in its recipient's quiet hours exactly when some sweep reaches it, finds it deliverable and hands it over at a quiet instant |
| DeliveryRuns.RetryMailedInQuietHours | backend/apps/notifications/services.py:66-70 | for every profile, mail refused less than five minutes before quiet hours is sent again inside them by the next sweep |
| DeliveryRuns.LateSweepMailsInQuietHours | backend/apps/notifications/tasks.py:132-139 | for every profile, mail held back to the end of quiet hours is sent in the next ones by a first sweep that runs then |
| DeliveryRuns.QuietMailHappens | backend/apps/notifications/tasks.py:129-191 | both with a concrete profile and concrete clock readings |
| DeliveryRuns.FiveSweepsSettle | backend/apps/notifications/tasks.py:129-191 | five complete sweeps, five minutes apart, settle every notification due at the first |
| Outcomes.StepKeepsSound | backend/apps/notifications/outcome_services.py:25-145 | every step keeps open follow-ups pending and outcomes consistent with their timestamps, and moves outcomes only up |
| Outcomes.StepKeepsOneOpen | backend/apps/notifications/models.py:156-160 | at most one open follow-up per recipient and key, kept by every step |
| Outcomes.RunsKeepSound | backend/apps/notifications/outcome_services.py:25-145 | both over every run |
| Outcomes.OutcomesOnlyMoveUp | backend/apps/notifications/outcome_services.py:70-122 | over every run PENDING goes to any outcome, EXPIRED and UNAVAILABLE only to COMPLETED, and nothing closed opens again |
| Outcomes.EventClosesExactly | backend/apps/notifications/outcome_services.py:125-145 | an event completes exactly the open action follow-ups on its target that it resolves |
| OutcomeEffects.CreationAppends | backend/apps/notifications/outcome_services.py:25-40 | what is appended, and that a follow-up is not when it asks for nothing or one with its key is open for the recipient |
| OutcomeEffects.EventsResolve | backend/apps/notifications/outcome_services.py:148-169 | which events settle actions on which records |
| OutcomeEffects.AcknowledgesIff | backend/apps/notifications/outcome_services.py:43-67 | who may acknowledge what, and what that writes |
| OutcomeEffects.CallChangesOne | backend/apps/notifications/outcome_services.py:43-122 | what acknowledging, expiring, withdrawing and reconciling write to one notification, and to no other; a reconciled action completes even after expiry or withdrawal |
| OutcomeEffects.EventCompletes | backend/apps/notifications/outcome_services.py:125-145 | an event completes, now, exactly the open pending actions on its target that it resolves |
| OutcomeDesk.Desk.FollowUp | backend/apps/notifications/outcome_services.py:25-41 | inserts, or returns the one open follow-up with the key, or fails if there is not exactly one |
| OutcomeDesk.Desk.Acknowledge | backend/apps/notifications/outcome_services.py:44-67 | acknowledges for the recipient only, once, while pending |
| OutcomeDesk.Desk.Expire | backend/apps/notifications/outcome_services.py:84-87 | a pending notification expires and closes; any other stays |
| OutcomeDesk.Desk.Withdraw | backend/apps/notifications/outcome_services.py:90-93 | a pending notification becomes unavailable and closes; any other stays |
| OutcomeDesk.Desk.Reconcile | backend/apps/notifications/outcome_services.py:96-122 | completes an action that the event resolves, unless completed already |
| OutcomeDesk.Desk.ReconcileForEvent | backend/apps/notifications/outcome_services.py:125-145 | the loop over the open follow-ups of a target |
| Policies.EffectiveInRange | backend/apps/notifications/policy_services.py:143-227 | whatever updates are tried, the policy in force stays within its bounds |
| Policies.OneWriterWins | backend/apps/notifications/policy_services.py:177-227 | of two updates that read the same version only one succeeds |
| Policies.UpdatesIff | backend/apps/notifications/policy_services.py:177-227 | an allowed update of the version in force is stored exactly when the policy it leads to is in range, with the fields it names, one version later |
| Policies.PolicyDesk.Change | backend/apps/notifications/policy_services.py:176-227 | the first update stores the defaults with the changes on top, later ones the stored values; the result is checked whole |
| FollowUps.BatchSize | backend/apps/notifications/tasks.py:248-254 | a batch holds at least one row and never more than configured |
| FollowUps.InOrderIsOrdered | backend/apps/notifications/tasks.py:256-263 | the query lists exactly the open pending follow-ups, by due date and id |
| FollowUps.ReachedIff | backend/apps/notifications/tasks.py:256-263 | a follow-up is reached exactly when it is open and fewer open ones than the batch holds come before it |
| FollowUpRuns.SweepsCompleteNothing | backend/apps/notifications/tasks.py:265-272 | the sweep's reconcile never completes anything with the registered resolvers |
| FollowUpRuns.AllRunsMoveUp | backend/apps/notifications/tasks.py:246-315 | outcomes only move up and nothing closed reopens, over runs of sweeps and outcome calls |
| FollowUpRuns.SilentOnceSettled | backend/apps/notifications/tasks.py:255-263 | once the outcome has left PENDING there is never another reminder or escalation |
| FollowUpRuns.ChasedIsPaced | backend/apps/notifications/tasks.py:286-312 | the k-th reminder comes no sooner than k - 1 intervals after the lead time before the due date |
| FollowUpRuns.RunsArePaced | backend/apps/notifications/tasks.py:286-312 | over every run; escalation at most to level one and never before due plus delay |
| FollowUpRuns.RemindersAreBounded | backend/apps/notifications/tasks.py:286-303 | reminders by time T number at most min(max, 1 + floor((T - (due - lead)) / repeat)) |
| FollowUpRuns.SweepRemindsOnce | backend/apps/notifications/tasks.py:289-303 | one sweep reminds at most once, a full interval after the reminder before |
| FollowUpRuns.EscalatedOnce | backend/apps/notifications/tasks.py:304-312 | after an escalation neither the level nor its time changes again |
| FollowUpRuns.StarvedBehindABatch | backend/apps/notifications/tasks.py:256-263 | with a full batch of open follow-ups ahead of it that do not expire, a follow-up is left alone by every later sweep, however overdue, while old ones are not answered |
| FollowUpRuns.SecondOfTwoStarves | backend/apps/notifications/tasks.py:256-263 | from an empty table: of two follow-ups the second is never chased by sweeps of one row, however long its escalation has been due |
| FollowUpEffects.SweepChases | backend/apps/notifications/tasks.py:246-315 | a reached follow-up gains exactly one reminder stamped now if one is due and none if not, the same for its escalation, and is expired instead once past its expiry; what is not reached stays as it is |
| FollowUpEffects.BeforeMeans | backend/apps/notifications/tasks.py:263 | earlier due dates first, none last, equal ones by primary key |
| FollowUpEffects.TwoSweepsRemindTwice | backend/apps/notifications/tasks.py:286-303 | a follow-up that was reached is reached and reminded again by the next sweep that finds a reminder due |
| FollowUpEffects.WorkIsChange | backend/apps/notifications/tasks.py:265-315 | what is counted for a follow-up is its reminder, its escalation or its expiry |
| FollowUpEffects.BatchSizeIs | backend/apps/notifications/tasks.py:248-254 | the batch size asked for, between one and what is configured |
| FollowUpJob.CountsChanges | backend/apps/notifications/tasks.py:255-315 | the job's count over a batch is the number of reminders, escalations and settled outcomes in the table |
| FollowUpJob.ChaseOne | backend/apps/notifications/tasks.py:264-312 | one pass of the job's loop, with the number of changes counted |
| FollowUpJob.Process | backend/apps/notifications/tasks.py:246-315 | the whole job over its batch |
| Numbering.NextNumber | backend/apps/projects/execution_services.py:533-535 | one more than the largest number so far, one for the first |
| Numbering.MaxOfNumbered | backend/apps/projects/decision_risk_services.py:193-211 | rows numbered 1..n without gaps have n as their largest number, so numbering goes on without gaps |
| ExecutionRuns.RunsKeepBoard | backend/apps/projects/execution_services.py:494-740 | whatever work a milestone starts with, in every reachable state an accepted deliverable has a finally accepted revision, revision numbers are 1..n with the n-th current, and milestone timestamps match the status |
| ExecutionRuns.StepKeepsDecisions | backend/apps/projects/execution_services.py:672-740 | no operation removes or renumbers a revision or changes a final decision |
| ExecutionRuns.DecisionsAreFinal | backend/apps/projects/execution_services.py:672-740 | the same over every run |
| ExecutionRuns.CompletedIff | backend/apps/projects/execution_services.py:743-783 | right after reconcile a milestone is COMPLETED exactly when it is not archived, has a required unarchived deliverable, and all of those are accepted |
| ExecutionRuns.ReconcileIsStable | backend/apps/projects/execution_services.py:743-783 | reconciling again on the same day changes nothing, and the first completion time is kept |
| ExecutionRuns.StatusIsDerived | backend/apps/projects/execution_services.py:328-740 | after each committed operation that reconciles, the stored status is the derived one |
| ExecutionRuns.ArchivedForGood | backend/apps/projects/execution_services.py:214-240 | an archived milestone stays archived over every run |
| ExecutionRuns.AcceptedRevisionMayOutliveStatus | backend/apps/projects/execution_services.py:381-389 | an accepted deliverable loses the status and keeps its accepted revision exactly on a valid work-status update or on archiving it or its milestone at the current version |
| ReviewEffects.StatusMeans | backend/apps/projects/execution_services.py:743-771 | what each milestone status means: blocked required work outranks a date that has passed, and either outranks work in progress |
| ReviewEffects.ReconcileWrites | backend/apps/projects/execution_services.py:772-783 | reconcile writes status, completion time and, when the status changes, the version |
| ReviewEffects.DecidesIff | backend/apps/projects/execution_services.py:672-718 | the first decision needs a reason to return, a standing recommendation where a reviewer is required, and an unused key |
| ReviewEffects.DecisionIsRecorded | backend/apps/projects/execution_services.py:715-730 | accepting gives ACCEPTED, that very revision, the time and 100 percent; returning gives CHANGES_REQUESTED and no accepted revision or time; a later decision changes nothing |
| ReviewEffects.ReturnLeavesInProgress | backend/apps/projects/execution_services.py:718-730 | returned required work leaves its milestone in progress unless other required work is blocked or the date has passed |
| ReviewEffects.AcceptCompletesIff | backend/apps/projects/execution_services.py:713-730 | accepting completes the milestone exactly when all other required work is accepted |
| ReviewEffects.SubmitsIff | backend/apps/projects/execution_services.py:494-531 | a retry changes nothing; a new revision needs evidence, a reviewer where required, and work that is neither accepted nor archived |
| ReviewEffects.SubmissionIsRecorded | backend/apps/projects/execution_services.py:533-568 | the new revision is numbered on, open and current, and the work waits for a review if one is required |
| ReviewEffects.RecommendationIsRecorded | backend/apps/projects/execution_services.py:613-652 | a recommendation with a reason replaces the same person's and sets the state, decided or not; the milestone is left alone |
| ReviewEffects.UpdatesIff | backend/apps/projects/execution_services.py:328-397 | which edits of work are stored; a change of plan alone does not ask blocked work for a summary |
| ReviewEffects.UpdateIsRecorded | backend/apps/projects/execution_services.py:328-408 | named fields take the values given, the others stay, one version later |
| ReviewEffects.CreationIsRecorded | backend/apps/projects/execution_services.py:243-325 | new work is planned, empty and last, and the milestone is left alone; it is refused exactly for an archived milestone, a missing reviewer, or beside work in the first place only |
| ReviewEffects.OneDeliverablePerMilestone | backend/apps/projects/execution_services.py:272-290 | over every run of the services a milestone never gets a second deliverable |
| ReviewEffects.MilestoneStarts | backend/apps/projects/execution_services.py:106-143 | a new milestone is planned and without work |
| Numbering.NextPlaceIsFreeIff | backend/apps/projects/execution_services.py:118-121 | the place computed for a new row is free exactly while there are no rows or some row has a place above zero |
| Ordering.AddsIff | backend/apps/projects/execution_services.py:118-131 | a milestone is added exactly to a project without milestones or with one that is not in the first place, and comes last |
| Ordering.OneMilestonePerProject | backend/apps/projects/execution_services.py:106-211 | a project that starts without milestones gets one and never a second, whatever is added and reordered |
| Ordering.ReorderedPlaces | backend/apps/projects/execution_services.py:193-211 | after reordering, the k-th milestone named has place k |
| ReviewEffects.ArchivingIsRecorded | backend/apps/projects/execution_services.py:411-436 | which work may be archived, and what that writes |
| ReviewEffects.MilestoneMovesAndArchives | backend/apps/projects/execution_services.py:146-240 | when a milestone may be moved or archived, and what becomes of it and its work |
| ExecutionBoard.Board.StatusOfRequired | backend/apps/projects/execution_services.py:748-771 | the status derived from required, unarchived deliverables |
| ExecutionBoard.Board.Reconcile | backend/apps/projects/execution_services.py:743-783 | status, first completion time and version after reconcile |
| ExecutionBoard.Board.NewDeliverable | backend/apps/projects/execution_services.py:243-325 | a new planned deliverable; the milestone is not reconciled |
| ExecutionBoard.Board.EditProgress | backend/apps/projects/execution_services.py:376-397 | the progress edits of one deliverable; a blocked one needs a summary |
| ExecutionBoard.Board.EditDeliverable | backend/apps/projects/execution_services.py:328-408 | the edits of one deliverable and their refusals |
| ExecutionBoard.Board.Change | backend/apps/projects/execution_services.py:328-408 | an edit stored and reconciled, or refused without a trace |
| ExecutionBoard.Board.SubmitRevision | backend/apps/projects/execution_services.py:494-610 | a new revision becomes current, or the earlier one with the key is returned |
| ExecutionBoard.Board.RecommendRevision | backend/apps/projects/execution_services.py:613-669 | a recommendation replaces the same person's earlier one and sets the revision's state |
| ExecutionBoard.Board.DecideRevision | backend/apps/projects/execution_services.py:672-740 | the first decision is recorded with its effect on the deliverable; later ones change nothing |
| ExecutionBoard.Board.ArchiveDeliverable | backend/apps/projects/execution_services.py:411-436 | archives unless it is required work of a completed milestone |
| ExecutionBoard.Board.MoveTarget | backend/apps/projects/execution_services.py:146-190 | a milestone edit, reconciled |
| ExecutionBoard.Board.Archive | backend/apps/projects/execution_services.py:214-240 | archives the milestone and every deliverable not archived yet |
| ReviewFollowUps.SubmissionAsksEveryone | backend/apps/projects/execution_services.py:576-596 | submitting asks everyone designated for a review of the new revision, once each, or the advisor for a decision if nobody is |
| ReviewFollowUps.RecommendationAsksOnce | backend/apps/projects/execution_services.py:653-668 | right after a recommendation exactly one follow-up is open on the revision: the advisor's decision |
| ReviewFollowUps.RunsAreCoherent | backend/apps/projects/execution_services.py:38-74 | board and follow-ups stay coherent over every run of review, outcome calls and events in which each commit's hooks run before anything else |
| ReviewFollowUps.NotFinalMeansLate | backend/apps/projects/execution_services.py:613-668 | a decided revision that has lost its final state was recommended after the decision |
| ReviewFollowUps.FollowUpsMatchReview | backend/apps/projects/execution_services.py:38-74 | when each commit's hooks run before anything else, an open follow-up on a decided revision means a recommendation after the decision; once a recommendation or a decision stands there is at most one, for the advisor's decision |
| ReviewFollowUps.DecisionClosesForGood | backend/apps/projects/execution_services.py:731-739 | when each commit's hooks run before anything else, the first decision closes everything open on its revision, for good unless somebody recommends it later |
| ReviewFollowUps.LateRecommendationStaysOpen | backend/apps/projects/execution_services.py:613-740 | a recommendation after the decision opens a follow-up that deciding again leaves open |
| ReviewHooks.HookHasCommit | backend/apps/projects/execution_services.py:576-596 | every hook that still waits was queued by one commit |
| ReviewHooks.OpenMeansAsked | backend/apps/projects/execution_services.py:38-74 | in whatever order hooks run or die, a follow-up is open on a revision only if a hook asked for one and no hook has closed the revision since |
| ReviewHooks.OpenIffAsked | backend/apps/projects/execution_services.py:38-74 | while nobody answers, expires or withdraws follow-ups, that is exactly when one is open |
| ReviewHooks.OpenAfterDecision | backend/apps/projects/execution_services.py:613-740 | a follow-up that is open once the decision's hook has run was asked for by a hook that ran later; its request recommends the decided revision, or committed before the decision and had its hook overtaken |
| ReviewHooks.DecisionClosesIff | backend/apps/projects/execution_services.py:731-739 | while only hooks close follow-ups, the decision's hook leaves its revision without open ones exactly when no hook that ran after it stands |
| ReviewHooks.PromptRunsAreWhole | backend/apps/projects/execution_services.py:576-740 | the runs in which every commit's hooks run at once are the runs of `ReviewFollowUps` |
| ReviewHooks.OvertakenHookReopens | backend/apps/projects/execution_services.py:653-668 | a run from a new milestone after which a follow-up is open on a finally accepted revision that nobody recommended since |
| ReviewHooks.KilledHookLeavesItOpen | backend/apps/projects/execution_services.py:738 | the same with no hook waiting: the worker died before the decision's hook |
| ReviewHooks.KilledHookAsksNobody | backend/apps/projects/execution_services.py:653-668 | a run that leaves a recommended, undecided revision without a follow-up: the worker died between the hooks |
| DecisionEffects.OptionsValidIff | backend/apps/projects/decision_risk_services.py:110-114 | one to twenty options, each of one to a thousand characters and not blank |
| DecisionEffects.PublishesIff | backend/apps/projects/decision_risk_services.py:117-169 | in every reachable state a retry changes nothing, and otherwise a decision is published exactly with valid options, an eligible owner, a current decision to supersede if any, and links that hold; the check for a successor never fires |
| DecisionEffects.PublicationIsRecorded | backend/apps/projects/decision_risk_services.py:150-170 | the new decision is current, the one it supersedes is not any more, and nothing else changes |
| DecisionEffects.LinkReport | backend/apps/projects/decision_risk_services.py:84-107 | a refusal of the links tells the truth about them |
| Decisions.LinksAccepted | backend/apps/projects/decision_risk_services.py:84-107 | links are accepted exactly when all targets are known and all differ |
| Decisions.RunsAreChained | backend/apps/projects/decision_risk_services.py:117-190 | in every reachable state supersession links point back, stay in one project, are not shared, and SUPERSEDED means having a successor |
| Decisions.SupersededMeansOneSuccessor | backend/apps/projects/decision_risk_services.py:117-190 | a decision is SUPERSEDED exactly when one decision, and only one, supersedes it |
| Decisions.ChainsEndOnce | backend/apps/projects/decision_risk_services.py:117-190 | following successors ends at one CURRENT decision; first and current decisions of chains correspond one to one |
| Decisions.AsManyCurrentAsChains | backend/apps/projects/decision_risk_services.py:117-190 | every project has as many CURRENT decisions as chains |
| Decisions.KeysAreUnique | backend/apps/projects/decision_risk_services.py:117-190 | a retry key names at most one decision of a project |
| Decisions.RetryChangesNothing | backend/apps/projects/decision_risk_services.py:117-190 | a retry with a used key returns without a change, whatever else it asks for |
| Decisions.PublishedForGood | backend/apps/projects/decision_risk_services.py:117-190 | over every run a published decision changes only from CURRENT to SUPERSEDED |
| Decisions.CheckLinks | backend/apps/projects/decision_risk_services.py:84-107 | the link loop reports the first objection |
| Decisions.DecisionTable.PublishDecision | backend/apps/projects/decision_risk_services.py:117-190 | publishes, supersedes or refuses as the rule says |
| RiskEffects.SeverityBySum | backend/apps/projects/decision_risk_services.py:20-30 | every cell of the matrix: high from medium with high on, medium when the two balance, low below |
| RiskEffects.TransitionsIff | backend/apps/projects/decision_risk_services.py:299-343 | a transition with a new key is accepted exactly at the current version, with an action whose demands are met and links that fit |
| RiskEffects.TransitionIsRecorded | backend/apps/projects/decision_risk_services.py:319-348 | in every reachable register: the state that each action leads to, what it does to closing time, rationale, owner and review date, and the revision it appends |
| RiskEffects.MitigationOpensClosed | backend/apps/projects/decision_risk_services.py:319-343 | mitigation started on a closed risk opens it and keeps the time and rationale of its closure |
| RiskEffects.TriagesIff | backend/apps/projects/decision_risk_services.py:258-287 | triage asks for version, owner, treatment, date and two levels, and nothing of the state |
| RiskEffects.TriageIsRecorded | backend/apps/projects/decision_risk_services.py:278-288 | what triage writes to the record and its new revision |
| RiskEffects.RaisesIff | backend/apps/projects/decision_risk_services.py:214-255 | raising a known risk changes nothing; a new one is raised exactly when its links fit |
| RiskEffects.RaisedIsRecorded | backend/apps/projects/decision_risk_services.py:234-255 | what a new risk and its first revision read |
| RiskEffects.CallsAreStored | backend/apps/projects/decision_risk_services.py:214-358 | an accepted call is in the register from then on, a refused one leaves no trace |
| Risks.SeverityIsAnAverage | backend/apps/projects/decision_risk_services.py:20-37 | the matrix is symmetric, monotone and lies between its inputs |
| Risks.RegisterMatchesLog | backend/apps/projects/decision_risk_services.py:193-358 | in every reachable register the version counts the revisions, numbers are 1..n, states link up, the last revision is the record, and severity is the matrix value |
| Risks.StepAppendsOnly | backend/apps/projects/decision_risk_services.py:193-211 | logs and links only grow |
| Risks.ReplayChangesNothing | backend/apps/projects/decision_risk_services.py:312-318 | a recorded key makes every later transition with it a no-op, even with a stale version |
| Risks.EmptyKeyNeverMoves | backend/apps/projects/decision_risk_services.py:312-318 | a transition with a blank key never changes a reachable risk |
| Risks.RaisedOnce | backend/apps/projects/decision_risk_services.py:214-255 | keys and reported sources name at most one risk of a project |
| Risks.ReopensIff | backend/apps/projects/decision_risk_services.py:326-351 | a reopening with a new key is accepted exactly for a closed risk at the current version with an owner, a review date and links that hold |
| Risks.ClosingTimeOutlivesClosure | backend/apps/projects/decision_risk_services.py:258-358 | after any step a risk that is not closed shows a closing time exactly when it had one and was not validly reopened |
| Risks.TriageKeepsClosingTime | backend/apps/projects/decision_risk_services.py:258-297 | triage of a closed risk opens it again and keeps its closing time and rationale |
| Risks.Register.Append | backend/apps/projects/decision_risk_services.py:193-211 | appends the revision that copies the record |
| Risks.Register.CheckRiskLinks | backend/apps/projects/decision_risk_services.py:84-107 | the first objection to the links of a risk, also when a record is linked to it already |
| Risks.Register.RaiseRisk | backend/apps/projects/decision_risk_services.py:214-255 | raises a risk with its first revision, or returns the existing one |
| Risks.Register.TriageById | backend/apps/projects/decision_risk_services.py:258-297 | triage with its refusals and its revision |
| Risks.Register.TransitionById | backend/apps/projects/decision_risk_services.py:300-358 | a transition with its refusals and its revision |
| EventFeed.KeptMembers | backend/apps/projects/services.py:233-236 | the rows kept by a loop are exactly those that are not of the `after` source with an id at or below it |
| EventFeed.AppendKept | backend/apps/projects/services.py:230-308 | one of the four loops appends the kept rows of its table |
| EventFeed.GatherEvents | backend/apps/projects/services.py:230-308 | the four loops in order |
| EventFeed.ProjectEventFeed | backend/apps/projects/services.py:222-313 | newest first, min(limit, total) unseen events, no row repeated; with `after` nothing of its source at or below its id, and nothing else left out unless the feed is full of events at least as new; without `after` over all events |
| EventFeed.FeedSkipsSeen | backend/apps/projects/services.py:230-306 | with an `after` id no event of its source at or below that id is returned, whatever the tables |
| EventFeed.FeedLeavesOutOnlyOlder | backend/apps/projects/services.py:222-313 | an event of another source, or with a larger id, is left out only when the feed is full and everything in it is at least as new |
| EventFeed.CutOffIsNeverPolled | backend/apps/projects/services.py:230-313 | a client that goes on from an event it received never gets an earlier one of that source that was cut off |
| EventFeed.FeedShape | backend/apps/projects/services.py:222-313 | the feed is newest first and holds min(limit, total) events |
| EventFeed.FeedIsDrawn | backend/apps/projects/services.py:222-313 | it repeats no row |
| EventFeed.FeedOmitsOnlyOlder | backend/apps/projects/services.py:222-313 | no event left out, of any source, is newer than one returned |
| EventFeed.ServiceFeedIsTheFeed | backend/apps/projects/services.py:222-313 | with an `after` id and tables whose ids rise with time it is that feed over the unseen events |
| EventFeed.UnseenIsEverything | backend/apps/projects/services.py:222-229 | without `after` nothing counts as seen |

## Left out

- HTTP views, serializers, routing, files, hashing and accounts: plumbing around these services.
- Permission tables, capabilities and project writability: their answers are parameters or assumed granted.
- Audit records, name and label snapshots, notification texts and the masking of failure reasons.
- SMTP: a message is taken, refused, or the worker is killed while sending it.
- 32-bit and 16-bit column widths: counters and quantities are unbounded integers.
- Time zones with daylight saving: quiet hours use a fixed offset, and `.date()` of an instant is its UTC date.
- Recurrence rules: `ReminderWindows` and `ReminderScans` take the series of starts as given, without `dateutil`; of the bound on rules they keep the number of days it spans.
- ReminderWindows.EveryOccurrenceSelected: speaks of the scans of one item; which items a scan reaches is `ReminderScans`.
- ReminderScans.ScanItems: re-resolution of group items inside the loop is `GrantTables.GrantTable.Reresolve`, and claiming what it picks up is `ReminderClaims`; the three are not joined in one state.
- All-day reminders: the pre-filter compares UTC dates, so the band of `ReminderWindows.SelectedExactly` does not describe them.
- Reminder recipients: they come from grants read before re-resolution in the same scan, so no freshness is claimed.
- EventCursor.DecodeCursor: takes text over the base64url alphabet and a payload of one plain string and one plain number; other JSON shapes and the decoder's leniency with foreign characters are not modelled.
- EventPages.CursorsAreFaithful: that ISO timestamps are read back as written is a premise.
- ResourceDesk.Resource.IsClean: checks the numbers of the record; the stock unit and the custom field schema are not modelled.
- ResourceDesk.Resource.Stock: unit names, locations and the project a stock movement is charged to are not modelled.
- ResourceDesk.Resource.Reconcile: the notifications that the job sends for calibration and due maintenance are not modelled, only its effect on status.
- Concurrent updates of one booking: `update_booking` reads its row before locking the resource; calls are modelled one after the other.
- GrantTables.GrantTable.Publish: which projects and accounts the actor may select is given, and the counts it returns are left out; announcing the publication is `GroupEvents.Board.DispatchEvent`.
- GrantTables.GrantTable.Reresolve: telling removed recipients is `GroupEvents.Board.DispatchEvent`.
- Concurrent delivery sweeps: runs are sequential, as one worker makes them.
- Outboxes.Outbox.Enqueue: creating a notification with its attempts is one step, as inside its callers' transactions.
- Outboxes.Outbox.DeliverOne: leaves out the status copied to schedule dispatch rows and the withdrawal of a skipped follow-up.
- Outboxes.Outbox.DeliverDue: the status copied to schedule dispatch rows is modelled in `ReminderClaims`, and closing the follow-up of a skipped notification is `OutcomeDesk.Desk.Withdraw`; the two are not joined in one state.
- FollowUpJob.Process: all clock readings of one sweep are taken as the one it starts with; a project's policy is fixed during a run.
- FollowUpRuns.RemindersAreBounded: a policy changed while a follow-up is open is not covered, because the bound names one policy.
- Outcomes.Key: deduplication keys are structured values; the source formats them as text with a numeric id between colons, which keeps them apart.
- ExecutionBoard.Board.DecideRevision: a decision key already used elsewhere in the project is a refusal without change; the source's lookup after the failed insert runs in a broken transaction.
- ExecutionBoard.Board.NewDeliverable: refusals for assignees, acceptance criteria and task links are not modelled.
- ExecutionBoard.Board.SubmitRevision: evidence items are counted, not validated one by one; assignments of people to reviews are not modelled.
- Creating a deliverable does not reconcile its milestone, so the status right after it is not claimed.
- Ordering.Reordered: reordering names all milestones of a project; the service also takes some of them.
- ReviewFollowUps.RunsAreCoherent: takes the on_commit hooks in the step of their commit; what other orders do is `ReviewHooks`.
- ReviewFollowUps.FollowUpsMatchReview: the same; it fails when hooks are overtaken or missed, see `ReviewHooks.OpenAfterDecision`.
- ReviewFollowUps.DecisionClosesForGood: the same; its exact condition is `ReviewHooks.DecisionClosesIff`.
- ReviewHooks.Fired: the loop of one closing hook over its follow-ups is one step, and the advisor is the one at the commit.
- EventFeed.ProjectEventFeed: rows carry a source, an id and a time; labels and paths are not modelled.
- `authored_schedule_occurrences`, notification visibility, account recovery, closeout export and deadline or risk reminder jobs: simpler neighbours of the clusters above.
