# Verified model of the design workflow backend

A Dafny 4.11 model of the four stateful parts of the backend, with proofs about every input and every run.
`dafny verify dfyconfig.toml` checks everything.

**Working time and shared timers.** `WorkCalendar` counts scheduled studio minutes between two instants,
`DailyWork` splits them over dates, `WorkSessions` holds the tables (active users, projects, cards, timer rows,
time rows) and the reconciliation of one card, `Workflow` gives every request as an atomic step on the tables and
the invariant all steps keep, `RowSums` sums sets of time rows, `WorkflowRuns` proves conservation and what a run
credits to a worker, `LiveReport` specifies the report of unsaved minutes, `DailyConservation` proves conservation
date by date, `DisplayedTotals` proves how far the totals that pages show, put together from several reads, are from
the true ones. `StoredRows` says row by row what the tables hold in every reachable state and what reconciling does to
them, `RequestEffects` which columns each request writes, both without the functions that compute it.
`WorkflowStore` is the imperative form: a class whose methods change the tables row by row, in the loops the handlers
use, each proved equal to its step.

**Board reorder.** `Ordering` and `Board` give the stored columns, the visible column a client submitted and the
result of a drag; `BoardReorder` proves what a drag keeps and where it puts the card; `BoardStore` is the
imperative request; `BoardResult` states the outcome on the submitted cards and the stored rows alone;
`BoardWorkflow` proves that a drag is the workflow's status request on the moved card.

**Presence leases.** `MemberText` is the text layer (user ids in decimal, `user:channel` names, sorted lists,
comma-joined lists); `Presence` proves what runs of lease updates lead to, for the process-local dictionary and
for the shared sorted set; `PresenceStore` holds both stores and the socket as classes.

**Confirmed actions and the inference lease.** `Confirmation` models proposals, confirmations and arbitrary other
edits in any order; `ActionStore` is its imperative form; `ConfirmationEffects` states exactly when and how proposing
and confirming take effect; `ConfirmedWorkflow` proves that a confirmed action is one
of the workflow's requests. `InferenceLease` is the leased slot for model calls.

Conventions. An instant is an integer number of microseconds of local wall time, a date a day index with Monday 0,
so a weekday is the index modulo 7. A request is one atomic step, because every mutating request runs in one
transaction (`design_workflow/realtime.py:13-20`), and it reads the clock once. The clock never goes back. Stored
rows with a uniqueness rule that the code relies on are kept as sequences where the uniqueness is proved
(timers, ids of time rows), and as maps where the primary key gives it. The code floors floating point seconds
divided by 60; for the durations that occur, at most four hours, that floor agrees with integer division of
microseconds, which is used here. Save stamps (`updated_at`) strictly increase, in microseconds, with every save; a
seal holds them to the millisecond, which is what the JSON encoder writes.

Where the code falls short of what one would like to hold, each with its exact condition:

- Counting n whole weeks gives n times `WORK_WEEK_MINUTES` except from an instant that is strictly inside a window
  and not minute-aligned, where it is one minute less (`WorkCalendar.WholeWeeks`; from Monday 09:00:30 in
  `WorkCalendar.MisalignedWeekLosesMinute`).
- The two presence stores hold the same leases after every update, but their `changed` flags differ after the
  whole key has expired, except when the update brings someone back who is not the only user the dictionary still
  remembers (`Presence.ReportsAgree`, with a concrete run in `Presence.FlagsDiffer`). As a result, with the shared
  store the last broadcast list is wrong exactly when a connection left after the whole key had expired and nobody
  connected or pinged since (`Presence.SharedBroadcastAgrees`, with a concrete run in `Presence.SilencedRunExists`).
- Reading card totals before live timers, as `live_minutes` does, overstates a card exactly when time rows of more
  minutes were deleted or rewritten in between than were added, so never if its rows were left alone
  (`DisplayedTotals.ReadOrder`). The opposite order overstates it exactly when more was logged in between than the
  card gained (`DisplayedTotals.ReversedRead`, with a case in `DisplayedTotals.ReversedReadDoubleCounts`).
- Project totals read in that order are too high exactly when minutes that left the project between the reads, with
  cards that moved away or with deleted or rewritten rows, exceed what was logged in it and brought in
  (`DisplayedTotals.ProjectReadOrder`, with a case in `DisplayedTotals.MovedCardOverstates`).
- A confirmed edit invalidates earlier proposals on its record for good if it is saved in a later millisecond than
  the one they sealed (`Confirmation.ConfirmationSupersedes`). Right after any confirmation another proposal on the
  record can still be confirmed exactly when the edit was an update and the proposal, open and in time, was sealed on
  the very state it produced, in the same millisecond (`Confirmation.StillConfirmable`); for two proposals sealed on
  one state that means an update that changes no value (`Confirmation.SameStateStillConfirmable`, with a case in
  `Confirmation.SameMillisecondNotSuperseded`).

## Model

| member | source | states |
|---|---|---|
| WorkCalendar.CountWorkingMinutes | design_workflow/services.py:112-136 | the nested loops compute the calendar's count, for any two instants |
| WorkCalendar.StudioHours | design_workflow/services.py:16-20 | by the clock and the day of the week alone the studio is open 9 to 13 Monday to Saturday and 14 to 18 Monday to Friday |
| WorkCalendar.TrueTime | design_workflow/services.py:119-136 | against working time measured one microsecond at a time, the count never overstates, stays within two minutes, and is exact between minute-aligned instants |
| WorkCalendar.MinuteByMinute | design_workflow/services.py:13-20 | between minute-aligned instants the count is the number of clock minutes at which the studio is open |
| WorkCalendar.SplitBound | design_workflow/services.py:119-136 | cutting an interval never gains a minute, loses at most one, and none unless the cut is strictly inside a window; a midnight cut is exact |
| WorkCalendar.WeekShift | design_workflow/services.py:13-20 | moving both ends by whole weeks changes nothing |
| WorkCalendar.WholeWeeks | design_workflow/services.py:10-20 | n whole weeks count n working weeks, one minute less exactly when the start is misaligned strictly inside a window |
| WorkCalendar.MisalignedWeekLosesMinute | design_workflow/services.py:119-136 | one whole week from Monday 09:00:30 counts one minute less than a working week |
| DailyWork.DailyWorkedMinutes | design_workflow/time_tracking.py:12-30 | the day loop lists exactly the dates with a positive share of the interval, with their shares |
| DailyWork.DailyTotal | design_workflow/time_tracking.py:12-30 | the daily shares add up exactly to the count of the whole interval |
| DailyWork.DailyShares | design_workflow/time_tracking.py:12-30 | dates strictly increase, and a date is listed with its share exactly when the share is positive |
| DailyWork.ShareIsTrueTime | design_workflow/time_tracking.py:12-30 | a date's share is the true working time of the interval on that date, rounded down by less than two minutes |
| WorkflowStore.Store.ActiveSessionMinutes | design_workflow/time_tracking.py:33-81 | the report maps exactly the keys with a positive amount to their amounts, reading and not changing the timers |
| LiveReport.ReportedExactly | design_workflow/time_tracking.py:33-81 | on any tables, a key is reported exactly if the filter names it, a timer of that worker on that card has a positive share of that date, the card is in progress, nothing is archived and the worker is active |
| LiveReport.RangeRestricts | design_workflow/time_tracking.py:47-81 | a report over a date range is the unrestricted report cut to those dates, key for key |
| LiveReport.FilterRestricts | design_workflow/time_tracking.py:33-81 | a report filtered by cards, worker and dates is the full report cut to the keys the filter names, key for key |
| LiveReport.RangesPartition | design_workflow/time_tracking.py:47-81 | reports over adjacent ranges share no key and merge to the report over the joined range |
| LiveReport.ReportTotals | design_workflow/time_tracking.py:63-81 | in a valid state no timer is filtered out, and a worker's reported amounts add up to what closing the timer now would log |
| LiveReport.ShownIsLive | design_workflow/serializers.py:60-68 | in a valid state the report map, summed over the keys of any set of cards, is what closing their timers now would log |
| WorkSessions.ReconcileConserves | design_workflow/time_tracking.py:110-165 | reconciling changes no total of logged plus live minutes at its instant, for any card and any worker on it |
| WorkSessions.ReconcileTimers | design_workflow/time_tracking.py:118-157 | afterwards each participant of the card has exactly one timer, nobody else has one, and no other card's timers or start move |
| StoredRows.ReconcileRows | design_workflow/time_tracking.py:102-157 | row by row on any tables: other cards' timers stay; an active manager, collaborator or assignee of a running unarchived card keeps their timer with its start or gets one from now; everyone else has none |
| StoredRows.ClosedTimersLogged | design_workflow/time_tracking.py:124-150 | a timer that closes logs the scheduled minutes it was open, for its card and worker; one that stays logs nothing |
| WorkSessions.MinStartIsLeast | design_workflow/time_tracking.py:158-163 | the cached start is the earliest start among the card's timers, or none without timers |
| WorkflowStore.Store.ReconcileTaskWorkSessions | design_workflow/time_tracking.py:84-172 | the loops over timers and days, the row inserts and deletes and the cache updates amount to the reconciliation step |
| WorkflowStore.Store.CurrentParticipants | design_workflow/time_tracking.py:102-116 | a worker is a participant exactly if the card is in progress, neither it nor its project is archived, and the worker is active and the manager, a collaborator or the assignee |
| WorkflowStore.Store.RecalculateActualMinutes | design_workflow/models.py:319-324 | the cached total becomes the sum of the card's time rows |
| WorkflowStore.Store.SetTaskStatus | design_workflow/views.py:1239-1277 | a status change is one valid step and leaves a valid state |
| WorkflowStore.Store.CreateCard | design_workflow/views.py:1035-1067 | creation is refused exactly for inactive assignees, unknown projects and active cards in archived projects, else is one valid step |
| WorkflowStore.Store.PatchCard | design_workflow/views.py:1111-1184 | an edit is refused exactly for a missing card, an inactive assignee, an unknown project or an active card in an archived project, and then changes nothing; else editing, moving or reassigning with one or two reconciliations is one valid step |
| WorkflowStore.Store.ArchiveCard | design_workflow/views.py:1496-1513 | restoring is refused exactly inside an archived project; archiving and restoring are valid steps |
| WorkflowStore.Store.ReassignCard | design_workflow/views.py:2301-2311 | reassignment to an active worker is one valid step |
| WorkflowStore.Store.AcceptCard | design_workflow/views.py:2885-2894 | only an unassigned card is claimed, in one valid step |
| WorkflowStore.Store.CreateStudioProject | design_workflow/views.py:926-933 | a project is created exactly with an active manager and active collaborators, in one valid step |
| WorkflowStore.Store.PatchStudioProject | design_workflow/views.py:958-1011 | an edit is refused exactly for a missing project, an inactive manager or an inactive collaborator, and then changes nothing; else archiving cascades to the cards, restoring does not, and every card of the project is reconciled, as one valid step |
| WorkflowStore.Store.SetUserActive | account/signals.py:8-48 | a changed activation reconciles every card around the worker, as one valid step |
| WorkflowStore.Store.AdminSaveCard | design_workflow/admin_realtime.py:63-75 | a back-office save, even with stale cached columns, ends in a valid state |
| WorkflowStore.Store.AdminSaveStudioProject | design_workflow/admin_realtime.py:112-152 | saving a project in the back office archives its cards if it is archived and reconciles all of them |
| WorkflowStore.Store.LogCardTime | design_workflow/views.py:2410-2416 | a manual row of positive minutes is added and the card's total corrected |
| WorkflowStore.Store.SaveTimeEntry | design_workflow/admin_realtime.py:76-99 | a stored row is rewritten, and no other; a deleted one comes back from its history under its old id; a new one gets a new id; the totals of its new and its old card are corrected |
| WorkflowStore.Store.DeleteTimeEntries | design_workflow/admin_realtime.py:171-192 | deleting rows corrects the totals of every card that held one |
| WorkflowStore.Store.DeleteCard | design_workflow/models.py:498-520 | deleting a card takes its timers and time rows with it and leaves a valid state |
| WorkflowStore.Store.DeleteStudioProject | design_workflow/admin_realtime.py:171-177 | deleting a project takes its cards with their timers and time rows with it and leaves a valid state |
| Workflow.OneRowReplaced | design_workflow/admin_realtime.py:76-85 | in a valid state ids of time rows are unique, so saving a row with a stored id changes exactly one row |
| WorkflowRuns.RestoreUndoesDelete | design_workflow/admin_realtime.py:87-107 | deleting a time row and restoring it from its history gives back the same rows, cached totals, cards and timers |
| Workflow.ApplyKeeps | design_workflow/time_tracking.py:102-167 | every step keeps: archived projects hold only archived cards, exactly one timer per participant, the cached start and the cached total are right, ids of time rows are unique and below the next one |
| Workflow.AdminReady | design_workflow/admin_realtime.py:154-157 | stale totals written by a history revert are repaired before the card is reconciled |
| RequestEffects.StatusEffect | design_workflow/views.py:1239-1277 | a status request writes the status and no other column of any card, project or worker |
| RequestEffects.CreateEffect | design_workflow/views.py:1035-1067 | the new card has the submitted columns and no other row is written, or nothing changes at all |
| RequestEffects.PatchEffect | design_workflow/views.py:1111-1184 | every submitted column is written, every other kept, no other card touched; or nothing changes at all |
| RequestEffects.ArchiveEffect | design_workflow/views.py:1496-1513 | only the archive flag of the card changes, or nothing at all |
| RequestEffects.ReassignEffect | design_workflow/views.py:2301-2311 | the worker becomes the assignee and has a timer if the card runs; the former assignee keeps one only as manager or collaborator |
| RequestEffects.AcceptEffect | design_workflow/views.py:2885-2894 | an unassigned card gets the worker as assignee, an assigned one is left alone |
| RequestEffects.AdminSaveEffect | design_workflow/admin_realtime.py:63-75 | the card has the saved columns, archived if its project is, and right cached columns |
| RequestEffects.NewProjectEffect | design_workflow/views.py:926-933 | exactly the submitted project is added |
| RequestEffects.ProjectEffect | design_workflow/views.py:958-1011 | submitted columns are written and others kept; archiving archives exactly the project's cards, restoring none |
| RequestEffects.AdminProjectEffect | design_workflow/admin_realtime.py:112-152 | the project is the saved row; its cards are archived with it and keep all else |
| RequestEffects.ActivationEffect | account/signals.py:8-48 | afterwards the worker is active or not as requested, others as before, no card or project column moves; a deactivated worker has no timer anywhere, an activated one a timer on every running card they manage, share or are assigned to |
| RequestEffects.LogTimeEffect | design_workflow/views.py:2410-2416 | one row with the submitted card, worker, minutes and date is added, and its minutes to the card's total |
| RequestEffects.SaveEntryEffect | design_workflow/admin_realtime.py:76-99 | the row of the id, or a new one, has the submitted columns, no other row changes, and totals are right |
| RequestEffects.DeleteEntriesEffect | design_workflow/admin_realtime.py:171-192 | exactly the rows with the ids are gone and totals are right |
| RequestEffects.DeleteCardEffect | design_workflow/models.py:498-520 | exactly the card, its timers and its time rows are gone |
| RequestEffects.DeleteProjectEffect | design_workflow/admin_realtime.py:171-177 | exactly the project, its cards, their timers and their time rows are gone |
| WorkflowRuns.Reachable | design_workflow/models.py:511-516 | the invariant holds in every state any run of requests reaches from an empty database |
| StoredRows.ReachableRows | design_workflow/time_tracking.py:102-167 | in every state any run reaches, row by row: archived projects hold only archived cards; a worker has a timer on a card, and one only, exactly if the card runs unarchived and the worker is active and its manager, collaborator or assignee; the cached start is the earliest timer's; the cached total is the sum of the card's rows |
| WorkflowRuns.ValidTimers | design_workflow/time_tracking.py:102-116 | in a valid state the workers with a timer on a card are exactly its participants |
| StoredRows.TimersExactly | design_workflow/time_tracking.py:102-116 | the same equivalence for one worker and one card, in any valid state |
| WorkflowRuns.EditConserves | design_workflow/time_tracking.py:63-165 | no status, assignee, membership, archive, restore, move, creation or activation request changes any total of logged plus live minutes at its instant |
| DailyConservation.EditConservesDay | design_workflow/time_tracking.py:124-133 | the same for each card, worker and date: minutes logged for the date plus minutes reported for it do not change at the instant of any such request |
| WorkflowRuns.SettledIsFixed | design_workflow/time_tracking.py:118-165 | reconciling a settled card again, at any instant, changes nothing |
| WorkflowRuns.SameStatusIsNoChange | design_workflow/views.py:2114-2132 | requests that reconcile only when the status changed lose nothing by it |
| WorkflowRuns.CreditBound | design_workflow/time_tracking.py:118-157 | over every run, whatever is deleted or rewritten in it, minutes credited to a worker on a card never exceed the scheduled time since the first start; if the run spares the worker's rows on the card and reopenings are immediate, at most one minute is lost per switch |
| WorkflowRuns.CreditIsTimeOpen | design_workflow/time_tracking.py:118-157 | over every run the stretches a worker's timer on a card was open follow one another, and the credit is at most the sum of their counts and the true working time in them; exactly that sum, and less than two minutes a stretch below the true time, if the run spares the worker's rows on the card |
| WorkflowRuns.CreditGrows | design_workflow/time_tracking.py:118-165 | along any run that spares the card's rows, or a worker's rows on it, their logged plus live minutes never shrink, whatever happens to other rows, cards and projects |
| WorkflowRuns.EditsSpare | design_workflow/time_tracking.py:118-157 | runs of edits and manual entries spare every card, so the results on sparing runs cover them |
| WorkflowRuns.LiveBecomesRows | design_workflow/time_tracking.py:118-157 | minutes live at one instant are, at any later one of such a run, logged in rows with new ids or still live |
| DisplayedTotals.ReadOrder | design_workflow/serializers.py:38-68 | a cached total read first plus the report map summed over the card later, whatever ran in between: the exact difference from the true minutes, which are exceeded exactly when rows of more minutes are gone than were added; if the card's rows were left alone it is short by exactly what was logged |
| DisplayedTotals.ReversedRead | design_workflow/serializers.py:44-53 | the opposite order, whatever ran in between, shows too much exactly when more was logged than the card gained |
| DisplayedTotals.ReversedReadDoubleCounts | design_workflow/serializers.py:44-53 | such a case: a card that leaves progress between the reads is overstated by exactly its live minutes |
| DisplayedTotals.ProjectReadOrder | design_workflow/serializers.py:44-68 | project minutes grouped first plus the report later, whatever ran in between: the exact difference from the true number, which is exceeded exactly when minutes of moved cards and of rows that are gone exceed what was logged and brought in; never if nothing left |
| DisplayedTotals.ProjectThreeReads | design_workflow/serializers.py:44-68 | the same exact difference when the projects of the timed cards come from a third, later read, and an upper bound if the requests after the report spare the timed cards |
| DisplayedTotals.MovedCardOverstates | design_workflow/serializers.py:91-93 | such a case: a card moved to another project between the reads leaves exactly its logged minutes in the total of the project it left |
| Board.AnchorsFound | design_workflow/views.py:1359-1391 | the moved card is among the visible cards and every other visible card is in the stored column, so no lookup fails |
| BoardReorder.Columns | design_workflow/views.py:1345-1403 | the target column is the stored one with the card placed, the source column just loses it, every other column of either board is the same |
| BoardReorder.Positions | design_workflow/views.py:1393-1399 | both affected columns are numbered 0, 1, 2, ... in their new order |
| BoardReorder.Frame | design_workflow/views.py:1326-1407 | no card is lost, added, archived or restored; only the moved card changes column or author; cards elsewhere are untouched; a card, the moved one included, whose column and position stay is unchanged to its author and stamp |
| BoardReorder.RelativeOrder | design_workflow/views.py:1357-1392 | all other cards of the target column keep their order |
| BoardReorder.Placement | design_workflow/views.py:1377-1392 | the card stands directly after its visible predecessor, else directly before its visible successor, else last |
| BoardResult.VisibleExactly | design_workflow/views.py:1363-1377 | over the submitted cards and the stored rows: which cards are visible, and that they stand in the order of submitted place, then id |
| BoardResult.PlacedExactly | design_workflow/views.py:1378-1392 | the moved card takes the submitted column; its position is one behind the last seen card submitted ahead of it, else one before the first other seen card, else last |
| BoardResult.NewColumn | design_workflow/views.py:1394-1402 | afterwards a column of the board holds exactly the cards it held, but for the moved one |
| BoardResult.Numbering | design_workflow/views.py:1393-1399 | both affected columns are numbered 0, 1, 2, ... without gaps or repeats |
| BoardResult.OthersInOrder | design_workflow/views.py:1349-1358 | two other cards of either column compare afterwards as they did before |
| BoardReorder.Faithful | design_workflow/views.py:1357-1392 | the stored column cut to the visible cards is the submitted order if and only if the other visible cards were submitted in stored order |
| BoardResult.FaithfulExactly | design_workflow/views.py:1363-1392 | all seen cards end up in submitted order if and only if the others among them were submitted in stored order |
| BoardReorder.Idempotent | design_workflow/views.py:1345-1407 | submitting the same drag again, by any user and at any later instant, is accepted and changes no card |
| BoardStore.TaskBoard.Reorder | design_workflow/views.py:1300-1407 | each refusal happens in exactly its case, told from the payload and the stored card, and changes nothing; otherwise the cards become the drag's result and exactly the changed cards are written |
| BoardStore.TaskBoard.Resubmit | design_workflow/views.py:1345-1407 | such a second submission answers with no updated card and writes nothing |
| BoardWorkflow.DragIsStatusStep | design_workflow/views.py:1409-1427 | a drag is the status request on the moved card: board and workflow tables stay in agreement, the tables valid, no total of logged plus live minutes changes, and a drag within one column changes nothing in them |
| BoardWorkflow.DragMovesTimers | design_workflow/views.py:1421-1427 | after a drag exactly the participants of the moved card have a timer on it, and nobody outside the in-progress column |
| BoardStore.TaskBoard.NumberColumn | design_workflow/views.py:1393-1402 | renumbering lists exactly the cards it changed |
| BoardStore.TaskBoard.LoadVisible | design_workflow/views.py:1359-1373 | the visible target column is the submitted cards really stored there plus the moved card, by submitted place, then id |
| MemberText.OwnerText | ws/presence.py:24-35 | the script's pattern and the split at the colon read the same user id from every stored name |
| MemberText.MemberInjective | ws/presence.py:61-61 | different users or channels have different stored names |
| MemberText.AscendingUnique | ws/presence.py:34-34 | a sorted list without duplicates is determined by its elements |
| MemberText.JoinInjective | ws/presence.py:49-49 | joined lists of comma-free texts are equal only when the lists are |
| Presence.JoinedListsCompare | ws/presence.py:36-49 | comparing the joined user texts is comparing the sets of users |
| Presence.StoreIsAlive | ws/presence.py:62-74 | after any update of any run a connection is stored exactly if its last update was a renewal less than ninety seconds ago, with that expiry |
| Presence.StoredExactly | ws/presence.py:62-74 | on the updates alone: a channel of a user is stored exactly if a renewal of it less than ninety seconds ago was followed by no other update of it |
| Presence.SnapshotExactly | ws/presence.py:36-74 | both stores list, ascending, exactly the users with such a channel; the dictionary reports a change exactly if somebody came or went, the shared store too within three minutes of the last update; the revision is the instant |
| Presence.ListedWhileAlive | ws/presence.py:73-74 | a user is listed exactly while one of their connections is alive |
| Presence.SteadyConnectionStays | ws/presence.py:66-70 | over a run, a connection that renews at gaps under ninety seconds is in every snapshot from its first to its last such renewal, whoever takes it |
| Presence.UserStaysListed | ws/presence.py:66-74 | a user stays listed through any stretch of snapshots each of which some steady connection of theirs covers, even when they pass from one connection to another |
| Presence.SilentConnectionGoes | ws/presence.py:66-70 | a connection silent after an update is in exactly the later snapshots taken less than ninety seconds after it, and in none if that update was its departure |
| Presence.StoresAgree | ws/presence.py:39-48 | the whole-key expiry never removes a live lease: both stores hold the same leases after every update |
| Presence.KeyGoneExactly | ws/presence.py:48-48 | the shared key is gone exactly from 180 seconds after the last update that left users |
| Presence.ReportsAgree | ws/presence.py:36-74 | both stores report the same users; the exact condition under which the changed flags agree |
| Presence.FlagsDiffer | ws/presence.py:36-74 | a concrete run where they differ: the only user reconnects after the whole key expired |
| Presence.BroadcastAgrees | ws/consumers.py:49-67 | with the in-memory store the last broadcast list is always the stored users |
| Presence.SharedBroadcastAgrees | ws/consumers.py:49-73 | with the shared store it is, exactly unless a connection left after the whole key expired with no connect or ping since |
| Presence.SilencedRunExists | ws/presence.py:48-49 | a concrete run that ends with the store empty and a user still announced |
| PresenceStore.MemoryLayer.Update | ws/presence.py:61-74 | the dictionary update keeps exactly the unexpired others, renews the connection for ninety seconds or removes it, and reports as specified |
| PresenceStore.RedisLayer.Update | ws/presence.py:24-51 | the script does the same on what the unexpired key holds, in whatever order members are listed, and makes the key last 180 seconds if users are left |
| PresenceStore.RedisLayer.UserTexts | ws/presence.py:25-35 | the script's user list is sorted, without duplicates, and exactly the owners of the members |
| PresenceStore.Socket.Connect | ws/consumers.py:19-34 | with the in-memory layer: a refused user leaves no lease; an accepted one is published, and the last published list is the stored users |
| PresenceStore.Socket.Disconnect | ws/consumers.py:69-73 | with the in-memory layer: leaving removes the lease, and the last published list is still the stored users |
| PresenceStore.Socket.Ping | ws/consumers.py:75-92 | with the in-memory layer: a ping of an active user renews the lease and publishes; a deactivated user renews nothing |
| Confirmation.SameProjectSeal | chat_ai/actions.py:24-42 | exactly which values of a project, and of its cards, a seal covers; save stamps to the millisecond |
| Confirmation.SameCardSeal | chat_ai/actions.py:24-42 | exactly which values of a card and its project a seal covers; the save stamp to the millisecond |
| Confirmation.TakesEffectOnce | chat_ai/actions.py:162-236 | over any run an action takes effect at most once, as often as it has confirmation audit rows, and exactly if it is consumed |
| ConfirmationEffects.ConfirmExactly | chat_ai/actions.py:162-236 | a confirmation takes effect exactly if the action is the user's, unconsumed, in time at both looks at the clock, sealed on the record's present state, the record unarchived, the user permitted and the edit valid and accepted; then edit, consumption and one audit row happen together, else nothing |
| ConfirmationEffects.ConfirmAnswers | chat_ai/actions.py:170-221 | each refusal of a confirmation in exactly its case |
| ConfirmationEffects.PrepareExactly | chat_ai/actions.py:86-111 | a proposal is stored exactly if it is well formed, permitted, valid, on an unarchived record, with fewer than twenty open; sealed on the present state, for five minutes |
| ConfirmationEffects.PrepareAnswers | chat_ai/actions.py:86-100 | each refusal of a proposal in exactly its case |
| ConfirmationEffects.ReplayAnswers | chat_ai/actions.py:132-145 | each answer to a replayed proposal in exactly its case |
| ConfirmationEffects.PossibleExactly | chat_ai/actions.py:162-236 | runs may contain any proposal, any confirmation and any other change of the records under which save stamps go on |
| Confirmation.TakesEffectOnProposedState | chat_ai/actions.py:94-111 | when an action takes effect the sealed state is the one it was proposed on, by the same user, within five minutes |
| Confirmation.ConfirmationSupersedes | chat_ai/actions.py:196-205 | once an action on a record is confirmed in a later millisecond than another had sealed, that other can never take effect, in any continuation |
| Confirmation.SealSurvives | chat_ai/actions.py:24-42 | an edit leaves the seal of its record intact exactly if it is an update that sets or clears every column to what it is, saved in the millisecond of the save before |
| Confirmation.StillConfirmable | chat_ai/actions.py:162-205 | after a confirmation, another action on the record can be confirmed exactly if the first was an update and the other is open, in time and sealed on the very state the update produced in the same millisecond |
| Confirmation.SameStateStillConfirmable | chat_ai/actions.py:162-205 | of two actions sealed on one state, the second can be confirmed after the first exactly if it is open, in time and the first was an update in the sealed millisecond that changed no value |
| Confirmation.SameMillisecondNotSuperseded | chat_ai/actions.py:196-199 | such a case: of two proposals to keep a name, the second can still be confirmed after the first |
| Confirmation.OpenActionsBounded | chat_ai/actions.py:94-100 | no user ever has more than twenty actions open |
| Confirmation.ShownIffConfirmable | chat_ai/actions.py:132-145 | a proposal is shown again exactly when confirming it then would be refused by nothing but the edit itself |
| ActionStore.ActionDesk.PrepareAction | chat_ai/actions.py:66-111 | refusals in order and without change, else a sealed action that expires in five minutes |
| ActionStore.ActionDesk.ConfirmAction | chat_ai/actions.py:162-243 | refusals in order and without change, else the edit, the consumption and one audit row together |
| ConfirmedWorkflow.ConfirmedIsRequest | chat_ai/actions.py:206-221 | a confirmed update or archive is the workflow request it replays: the records and the workflow tables stay in agreement, the tables stay valid, and no total of logged plus live minutes changes at that instant |
| ConfirmedWorkflow.ConfirmedUpdateKeepsTimers | chat_ai/actions.py:206-211 | a confirmed update changes nothing in the workflow tables: no timer is closed or opened and nothing is logged |
| ConfirmedWorkflow.ConfirmedArchiveStopsTimers | chat_ai/actions.py:212-221 | after a confirmed archive no timer is open on the card, or on any card of the project |
| InferenceLease.OneUnexpiredHolder | chat_ai/services.py:242-253 | in every interleaving a worker with an unexpired lease is the recorded owner, so there is at most one |
| InferenceLease.HeldUntilReleased | chat_ai/services.py:346-350 | until its own release or expiry a worker stays recorded, whatever others release |
| InferenceLease.AcquiredWhenFree | chat_ai/services.py:243-250 | a request for the slot succeeds exactly when nobody holds an unexpired lease |
| InferenceLease.LeaseRow.TryAcquire | chat_ai/services.py:242-250 | the conditional update takes the row exactly if nobody owns it or the lease has run out, for twice the timeout and a minute |
| InferenceLease.LeaseRow.Finish | chat_ai/services.py:346-350 | the final release is the release step and matches only by owner |

## Left out

- Permission rules of the workflow handlers: a refused request is no step, so runs contain the accepted ones; only refusals that protect the invariant (inactive users, archived projects, missing rows) are modelled.
- Clock reads inside one request: a request that reconciles several cards reads the clock for each; here it has one instant.
- WorkflowStore.Store.PatchCard: titles, dates, labels, descriptions and edit-conflict checks are not modelled, only the columns that decide who works on the card.
- User deletion: its cascades remove timers and time rows without reconciliation, so the invariant is not claimed for it; direct updates of `is_active` that bypass the signal are excluded for the same reason.
- WorkflowRuns.CreditBound: the lower bound needs runs that spare the worker's own time rows on the card, because deleting or rewriting those changes credited minutes on purpose; rows saved by hand count as manual. The same holds for CreditIsTimeOpen and CreditGrows.
- Project archive dates, project status labels, activity rows, notifications and broadcasts of workflow requests, which no claim here depends on.
- Daylight-saving and time zone changes: the code subtracts wall times that share one zone, so one fixed local clock is used.
- Database locking, lock order and isolation finer than one atomic request.
- Rows as objects: the tables are fields of one class and rows are values, so stale in-memory copies of a row are modelled only where a full-row save writes them back (the back-office save).
- BoardStore.TaskBoard.Reorder: activity rows and notifications of a drag; its status change and timers are proved in BoardWorkflow, on the specification and not on the class.
- Presence.StoresAgree: sorted-set scores are exact instants here, not floating point.
- Renewal of channel-group memberships, chat messages and typing events of the socket.
- Confirmation.Native: the native edit writes one save stamp; the later saves of cached card columns by its reconciliation, which only raise stamps further, are not in that model. What it does to timers and time rows is proved in ConfirmedWorkflow.
- PresenceStore.Socket: the socket class is bound to the in-memory layer; what the last broadcast list is with the shared store is proved on runs (Presence.SharedBroadcastAgrees), not for a class.
- ActionStore.ActionDesk.PrepareAction: whether the record was named or selected in the conversation is decided before and is not modelled.
- The hash of a sealed state: seals are compared as the values that are hashed, with stamps cut to the millisecond as the encoder cuts them.
- InferenceLease: conversation lookup, message storage and the model call between acquisition and release.
- Image processing, mail, background jobs, single sign-on, knowledge search, dashboards and analytics.
