# Booking platform: a verified model

A Dafny model of the parts of a multi-tenant barber-booking platform that keep shared state under retries, expiring
leases, duplicated messages and stale caches, with proofs about every run of them. A tenant transaction is one atomic
step from a table value to a table value; a service method is several steps that may interleave with any others. Where
the source updates tables or fields in place, a class performs the statements one by one and is proved equal to the
function that the run theorems speak about. `dafny verify dfyconfig.toml` checks everything.

| file | part of the system |
|---|---|
| `Appointments.dfy`, `AppointmentRuns.dfy` | the appointment store, its transactions and constraints, and all runs of them |
| `BookingProtocol.dfy` | idempotent booking: replay, outside checks, lock, look-up, insert, commit, in every interleaving |
| `Availability.dfy`, `WorkingHours.dfy`, `Bookable.dfy` | the slot engine, working hours and their store, and the agreement of both with the exclusion guard of the other service |
| `Notifications.dfy`, `NotificationRuns.dfy` | the event consumer, the notification table, and all runs with redeliveries and the delivery worker |
| `Outbox.dfy`, `Pipeline.dfy` | the outbox and its publishers; commit, publish and notify from end to end |
| `CredentialDelivery.dfy` | delivery of initial passwords under claims with leases (auth-service and customer-service) |
| `TenantDomains.dfy`, `DomainCache.dfy` | domain verification with racing verifiers; the cache-aside resolver |
| `Wrappers.dfy` | the optional values all of them use |
| `RateLimit.dfy`, `Backoff.dfy`, `Migrations.dfy`, `Members.dfy` | fixed-window limiter, wrapping backoff and retries, restartable migrations, the member API |

## Where the code does less than one might expect

Each of these is proved, with the exact condition under which the property does hold.

- A service of duration zero is accepted by the catalog and offered, but the appointments table rejects it
  (`Bookable.AnswersAreBookable`: bookable if and only if the duration is positive).
- Rescheduling asks the same availability check, whose occupancy holds the appointment's own row; a move that meets its
  own present range is refused although the store would accept it (`Bookable.MoveOverOwnRange`, `Bookable.MoveAgreement`).
- Blocked periods are fetched for one local day while windows run up to 24 hours from midnight; on a 23-hour day a
  slot can overlap a block (`Bookable.ShortDayMissesBlock`, `Bookable.BlocksRespectedIff`); on a day of 24 hours or more
  none can (`Bookable.BlocksRespectedOnFullDays`).
- A `rescheduled` event handled to the end leaves the right reminders if and only if none of its future reminders was
  planned before; a second complete delivery leaves none at all (`NotificationRuns.RescheduleRightIff`,
  `NotificationRuns.SecondDeliverySilences`).
- A reminder that is with the delivery worker when its appointment is cancelled can become pending again through a
  retry report; silence is guaranteed if and only if there is none (`NotificationRuns.SilentWithWorkerIff`).
- An outbox row can be both published and terminal when two publishers hold it, because marking has no guard against
  terminal rows (`Pipeline.PublishedAndTerminal`, `Pipeline.ExclusiveIff`).
- The repository's README.md, lines 96-98, says that deactivating a domain invalidates the resolver cache immediately; a
  read that straddles the update puts the old answer back for up to five minutes (`DomainCache.StraddlingReadGoesStale`),
  if and only if the update changes the answer of the host that was read (`DomainCache.StraddledUpdateIff`).
- A password reset after the creator of an account began leaves its emailed initial password without effect, even before
  'sent' (`CredentialDelivery.ResetBeforeSent`, `CredentialDelivery.WinnerStoredIff`).
- A limiter window under one millisecond never limits (`RateLimit.LimitsIff`).
- A migration file that sorts before one already applied is executed out of order (`Migrations.LateInsertion`,
  `Migrations.CompleteRunIff`).

## Model

| member | source | states |
|---|---|---|
| `Appointments.Repository.Replay` | services/appointment-service/internal/repository/repository.go:34-57 | a recorded key answers with its appointment, a different fingerprint with a conflict, an unknown key with nothing |
| `Appointments.Repository.Create` | services/appointment-service/internal/repository/repository.go:59-96 | the statement-by-statement transaction is the atomic Create; a first success stores each column as asked for, appends one event and one outbox row with those values, records the key and changes no other row; a recorded key is answered with its appointment or a conflict; an error changes nothing |
| `Appointments.Repository.AppendEvent` | services/appointment-service/internal/repository/repository.go:98-119 | one event and one outbox row with the same payload, at the end |
| `Appointments.Repository.Transition` | services/appointment-service/internal/repository/repository.go:192-219 | equals the atomic transition; success changes the status alone and logs the event of the new status; not found and invalid transition are answered exactly when they hold |
| `Appointments.Repository.Reschedule` | services/appointment-service/internal/repository/repository.go:221-240 | equals the atomic move; success changes the four times alone and logs the event; not found and invalid transition are answered exactly when they hold |
| `Appointments.Repository.Occupancy` | services/appointment-service/internal/repository/repository.go:242-260 | exactly the live rows of the barber that meet the range, each once |
| `Appointments.CreateBooks` | services/appointment-service/internal/repository/repository.go:82-96 | a first success stores branch, barber, service, contact, tenant and the four times of the request with status pending, and its event carries the same values; a failure changes nothing |
| `Appointments.TransitionTurns` | services/appointment-service/internal/repository/repository.go:211-216 | a successful transition changes the status of one row alone and logs the event of that status |
| `Appointments.RescheduleShifts` | services/appointment-service/internal/repository/repository.go:232-237 | a successful move changes the four times of one row alone and logs it |
| `AppointmentRuns.NeverDoubleBooked` | services/appointment-service/migrations/000002_appointment_foundation.up.sql:3 | after any run of operations from an empty store, two live appointments of one tenant and barber have disjoint occupied ranges |
| `AppointmentRuns.TimesWellOrdered` | services/appointment-service/internal/application/application.go:172-174 | with the catalog's non-negative times every run keeps occupied start <= start < end <= occupied end |
| `AppointmentRuns.EventLogDeterminesRow` | services/appointment-service/internal/repository/repository.go:98-119 | in every reachable state an appointment's events start with Created, replay to its status, start and end with at most two status changes, and pair in order with the outbox rows ever written |
| `AppointmentRuns.TransitionNeverConflicts` | services/appointment-service/internal/repository/repository.go:197-219 | in a valid store a transition succeeds exactly when the table allows it; the exclusion guard cannot stop it |
| `AppointmentRuns.DeadStaysDead` | services/appointment-service/internal/repository/repository.go:192-195 | a cancelled, completed or missed appointment keeps its row and gains no event in any later run |
| `AppointmentRuns.RunKeepsValid` | services/appointment-service/internal/repository/repository.go:59-240 | the whole invariant (ranges, keys, log, outbox) holds through every run |
| `AppointmentRuns.ColumnsStay` | services/appointment-service/internal/repository/repository.go:197-240 | tenant, branch, barber, service and contact of an appointment stay as booked in every run |
| `AppointmentRuns.StoredTimes` | services/appointment-service/internal/application/application.go:172-174 | a booking or a move stores end and buffers in minutes of the service from the start |
| `AppointmentRuns.CreateOkIff` | services/appointment-service/migrations/000002_appointment_foundation.up.sql:2-3 | a booking under a new id and key succeeds if and only if its ranges are proper and no live appointment of the barber meets its occupied range |
| `AppointmentRuns.RescheduleOkIff` | services/appointment-service/migrations/000002_appointment_foundation.up.sql:2-3 | a move succeeds if and only if the appointment is live and of the tenant, the new ranges are proper and no other live appointment of the barber meets the new occupied range |
| `BookingProtocol.CommitIsAtomicCreate` | services/appointment-service/internal/repository/repository.go:59-96 | the commit of the split transaction is the atomic Create on the store as it is at that moment |
| `BookingProtocol.OneAppointmentPerKey` | services/appointment-service/internal/application/application.go:132-180 | in every interleaving each stored appointment is the only one created under its tenant, scope, operation and key while the key is retained |
| `BookingProtocol.SuccessfulCallsAgree` | services/appointment-service/internal/repository/repository.go:34-96 | all successful calls of one retained key have one fingerprint and return the one appointment created for it |
| `BookingProtocol.RecordedFingerprintWins` | services/appointment-service/internal/repository/repository.go:68-80 | once a key is recorded no later call with another fingerprint succeeds while it is retained |
| `BookingProtocol.RunRefinesStore` | services/appointment-service/internal/application/application.go:132-180 | every interleaving of the split protocol is a run of whole store transactions |
| `BookingProtocol.RunKeepsInv` | services/appointment-service/internal/repository/repository.go:59-96 | lock ownership, uncommitted rows, keys, epochs and answers stay consistent through every interleaving |
| `BookingProtocol.RecordedKeyAnswers` | services/appointment-service/internal/repository/repository.go:34-80 | a call that finds its key recorded, before or under the lock, ends without a change and is answered with the recorded appointment if and only if the fingerprint agrees |
| `BookingProtocol.CommitStoresRequest` | services/appointment-service/internal/repository/repository.go:82-96 | the commit of a call stores its request in its columns with the times of its service, records its key and answers with its id |
| `Availability.Available` | services/scheduling-service/internal/service/availability.go:68-90 | the nested loops terminate for every step of at least 1 and return, in arithmetic, exactly the slots of the grid points that are later than now and whose buffered range lies in a window and apart from every blocked and occupied range |
| `Availability.OfferMeaning` | services/scheduling-service/internal/service/availability.go:68-90 | a slot is offered if and only if it is a grid point of some window whose buffered range lies in the window, is later than now and meets nothing busy |
| `Availability.OfferIsRight` | services/scheduling-service/internal/service/availability.go:68-90 | soundness and completeness of the offer in arithmetic alone |
| `Availability.OfferAscends` | services/scheduling-service/internal/service/availability.go:68-90 | for valid windows the output is strictly ascending whenever a booking occupies any time |
| `Availability.TouchingWindowsRepeat` | services/scheduling-service/internal/service/availability.go:70-71 | without occupied time, touching windows repeat the shared start, for every step |
| `WorkingHours.ParseUndoesText` | services/scheduling-service/internal/repository/repository.go:63-66 | parseWall undoes timeText for every minute of the day |
| `WorkingHours.ParsedIsPrinted` | services/scheduling-service/internal/service/availability.go:35-41 | whatever parses is a printed minute of the day, with or without the leading zero of the hour |
| `WorkingHours.ParseUndoesShortText` | services/scheduling-service/internal/service/availability.go:35-41 | the printed minute also parses without its leading zero |
| `WorkingHours.WallExamples` | services/scheduling-service/internal/repository/repository.go:63-66 | 09:05 and 9:05 are minute 545, 24:00 is no time, minute 545 prints as 09:05 and seconds are dropped |
| `WorkingHours.ValidIntervals` | services/scheduling-service/internal/service/availability.go:20-41 | true exactly when every interval parses to a non-empty range and each ends by the start of every later one, stated on the texts |
| `WorkingHours.HoursTable.ReplaceHours` | services/scheduling-service/internal/repository/repository.go:22-36 | succeeds exactly when no two entries for one weekday overlap; then the barber's rows are just the weekday and times of the intervals sent, else nothing changes |
| `WorkingHours.HoursTable.Hours` | services/scheduling-service/internal/repository/repository.go:37-62 | the index-map loop computes the grouping of the ordered rows |
| `WorkingHours.CollisionIff` | services/scheduling-service/migrations/000002_scheduling_foundation.up.sql:14 | valid hours violate the exclusion constraint if and only if two entries for one weekday overlap |
| `WorkingHours.DistinctDaysApart` | services/scheduling-service/migrations/000002_scheduling_foundation.up.sql:14 | valid hours with distinct weekdays never violate the exclusion constraint |
| `WorkingHours.HoursSurviveStore` | services/scheduling-service/internal/repository/repository.go:22-62 | valid hours with distinct weekdays read back as each non-empty weekday once, ascending, with the same intervals in order |
| `WorkingHours.IntervalsForDate` | services/scheduling-service/internal/service/availability.go:42-67 | an override replaces the weekly hours, else the first day of the weekday is used; the windows are the two times of each readable interval in minutes after midnight, in order |
| `WorkingHours.WindowsValid` | services/scheduling-service/internal/service/availability.go:57-66 | valid hours become ordered windows within 24 hours of local midnight |
| `WorkingHours.StoredHoursGiveWindows` | services/scheduling-service/internal/service/availability.go:42-67 | valid hours with distinct weekdays, stored, read back and looked up, give for each weekday exactly the intervals sent for it, as ordered windows |
| `Bookable.Interval` | services/scheduling-service/internal/handler/http.go:239-245 | for every text the fallback step is at least one minute, and it is 15 or the number the text stands for |
| `Bookable.IntervalOfNumber` | services/scheduling-service/internal/handler/http.go:239-245 | a number written in decimal is the step itself, or 15 when it is zero or does not fit 64 bits |
| `Bookable.IntervalOfSigned` | services/scheduling-service/internal/handler/http.go:239-245 | a plus sign is ignored and a negative number gives 15 |
| `Bookable.Occupied` | services/scheduling-service/internal/service/occupancy_http.go:59-64 | keeps exactly the non-empty ranges of the response |
| `Bookable.AvailabilityOf` | services/scheduling-service/internal/application/application.go:214-235 | the whole query: in arithmetic exactly the suitable grid slots of the date's windows at the step in force, clear of every block of the local day and of every live appointment of the barber; each is bookable in the store it looked at if and only if the service takes time, and valid hours give them strictly ascending |
| `Bookable.GuardSeesTheSame` | services/scheduling-service/internal/application/application.go:224-224 | the fetched occupancy meets a slot of the date if and only if the exclusion guard would reject its insert |
| `Bookable.AnswersAreBookable` | services/appointment-service/internal/application/application.go:172-178 | for any hours and any valid store: a booking of any slot of the query's answer, under a fresh id and key, succeeds if and only if the duration is positive |
| `Bookable.RightIsClear` | services/scheduling-service/internal/application/application.go:219-235 | slots that are right against the fetched data are clear of all live appointments of the store and all blocks of the day |
| `Bookable.GuardAgreement` | services/appointment-service/internal/repository/repository.go:82-96 | a free future grid start is offered if and only if the store would accept it |
| `Bookable.MoveAgreement` | services/appointment-service/internal/application/application.go:220-243 | a free future grid start is offered for a move if and only if the store would accept the move and the new range does not meet the appointment's own present one |
| `Bookable.MoveOverOwnRange` | services/appointment-service/internal/application/application.go:238-238 | a move by half an hour that the store accepts and availability does not offer |
| `Bookable.BlocksRespectedIff` | services/scheduling-service/internal/repository/repository.go:208-208 | offered slots avoid every possible block if and only if no otherwise free slot reaches past the next local midnight |
| `Bookable.BlocksRespectedOnFullDays` | services/scheduling-service/internal/repository/repository.go:208-208 | blocks are respected whenever every window ends by the next midnight, so on every day of 24 hours or more |
| `Bookable.ShortDayMissesBlock` | services/scheduling-service/internal/repository/repository.go:208-208 | a 23-hour day on which a blocked time is offered |
| `Bookable.OfferWithBlocks` | services/scheduling-service/internal/service/availability.go:77-86 | more busy time removes exactly the slots that meet it |
| `Notifications.Consumer.PlanReminders` | services/notification-service/internal/consumer/consumer.go:255-277 | the offset loop performs the planned inserts in order, up to the first failure |
| `Notifications.Consumer.Handle` | services/notification-service/internal/consumer/consumer.go:217-280 | succeeds exactly when the envelope is well formed and all its writes and lookups succeed; a failure leaves a prefix of its writes; a success leaves one announcement of the event's own kind, the reminders of its future offsets for a created or rescheduled event, cancelled reminders for a rescheduled or cancelled one, nothing for completed and no-show, and every other row as it was |
| `Notifications.Consumer.Receive` | services/notification-service/internal/consumer/consumer.go:191-214 | acknowledged if and only if handled, and then told; terminated exactly when the deliveries are exhausted, with a failed row under the event's own kind unless that row is sent or cancelled |
| `Notifications.CompleteTells` | services/notification-service/internal/consumer/consumer.go:217-280 | a complete handling, kind by kind: created, rescheduled, cancelled and confirmed events get the row of that name with the event's appointment and no other, and every future offset of a created or rescheduled event has its reminder |
| `NotificationRuns.DeliveryIsRun` | services/notification-service/internal/consumer/consumer.go:217-280 | a delivery cut off after any write is a run of single writes |
| `NotificationRuns.FinalRowsStay` | services/notification-service/internal/repository/repository.go:17-57 | in any run of writes, failures, claims and reports no row disappears or changes appointment or time, and sent and cancelled rows never change |
| `NotificationRuns.EveryRowHasItsEvent` | services/notification-service/internal/repository/repository.go:17-28 | every row was written for the event its key names, with that event's appointment and time |
| `NotificationRuns.RescheduleLeaves` | services/notification-service/internal/consumer/consumer.go:249-277 | after a complete handling the pending reminders are exactly the new keys of the future offsets, at the new start minus the offset; none of the old start |
| `NotificationRuns.RescheduleRightIff` | services/notification-service/internal/consumer/consumer.go:249-277 | that is one per future offset if and only if no such reminder was planned before |
| `NotificationRuns.FirstRescheduleIsRight` | services/notification-service/internal/consumer/consumer.go:249-277 | in every run, the first delivery to enter the reminder loop, if completed, leaves the right reminders, with any writes of other events, audit rows and other work of the delivery worker between its own writes |
| `NotificationRuns.InterleavedAgrees` | services/notification-service/internal/consumer/consumer.go:217-280 | for the reminders of the appointment such an interleaved delivery, at any point, equals an uninterrupted one |
| `NotificationRuns.SecondDeliverySilences` | services/notification-service/internal/repository/repository.go:23-23 | a second complete delivery at a later clock and with no new offset leaves no pending reminder |
| `NotificationRuns.CancelledStaysSilent` | services/notification-service/internal/consumer/consumer.go:217-280 | after every created and rescheduled event of the appointment was handled to the end and then its reminders were cancelled, no later delivery of any of its events, the cancelled one included, in any order, interleaving or cut, makes a reminder pending |
| `NotificationRuns.SilentWithWorkerIff` | services/notification-service/migrations/000007_replace_whatsapp_with_email.up.sql:11-32 | with the delivery worker at work this holds for all continuations if and only if no reminder of the appointment was in flight |
| `NotificationRuns.WorkerMeaning` | services/notification-service/migrations/000009_claim_tenant_scope.up.sql:16-30 | a row goes into work only by a claim of a due or abandoned row, for two minutes, is sent only on the report of the current claim, and only such a report makes it pending again |
| `NotificationRuns.WorkerProgress` | services/notification-service/migrations/000007_replace_whatsapp_with_email.up.sql:25-32 | a due or abandoned row can be claimed, and the report of that claim decides its status |
| `Outbox.Publisher.PublishOne` | services/appointment-service/internal/outbox/publisher.go:173-221 | marks after an acknowledgement, releases after a refusal, and drops readiness on a refusal |
| `Outbox.Publisher.PublishBatch` | services/appointment-service/internal/outbox/publisher.go:162-171 | claims the batch and settles it event by event: each row column by column as its own fate says, no other row changed; still ready only if all were acknowledged |
| `Outbox.BatchSettlesEach` | services/appointment-service/migrations/000006_outbox_release_returning.up.sql:16-21 | each event of a batch ends as its own fate alone decides and no other row changes |
| `Outbox.ClaimableIff` | services/appointment-service/migrations/000005_outbox_bounded_retry.up.sql:22-30 | a row can be claimed if and only if it is neither published nor given up and nobody took it within the last minute |
| `Outbox.HeldForAMinute` | services/appointment-service/migrations/000005_outbox_bounded_retry.up.sql:22-36 | a claimed row can be claimed again if and only if more than a minute has passed |
| `Pipeline.EventsAreConserved` | services/appointment-service/internal/outbox/publisher.go:162-221 | in every run a committed event is unchanged in the outbox or was acknowledged; published means acknowledged; terminal if and only if refused at least twenty times; a pending one becomes claimable again whoever crashed |
| `Pipeline.PublishedRowsStay` | services/appointment-service/migrations/000004_idempotency_retention_privileges.up.sql:53-75 | a published row keeps its mark for thirty days through every run |
| `Pipeline.NotificationsAreTraced` | services/notification-service/internal/repository/repository.go:17-51 | under duplicate publishes and redeliveries every notification traces to a committed event on the stream and there is one row per event and type, and per event and offset |
| `Pipeline.CommittedEventIsTold` | services/appointment-service/internal/outbox/publisher.go:177-185 | the message of a committed event carries its tenant, appointment, kind and start in version 1, and a complete handling of it tells the customer so |
| `Pipeline.FinalNotificationsStay` | services/notification-service/internal/repository/repository.go:42-57 | sent and cancelled notifications are never overwritten in any run of the pipeline |
| `Pipeline.RunKeeps` | services/appointment-service/internal/outbox/publisher.go:162-221 | the ledger of rows, acknowledgements and held events, and the tracing of notifications, hold through every run |
| `Pipeline.ExclusiveIff` | services/appointment-service/migrations/000003_outbox_publisher.up.sql:34-43 | a step keeps published and terminal apart if and only if it is no mark of an unpublished terminal row |
| `Pipeline.ExclusiveWhileUnshared` | services/appointment-service/migrations/000005_outbox_bounded_retry.up.sql:14-40 | in every run in which no held event is taken again, each row is exactly one of pending, published and terminal |
| `Pipeline.OnePublisherNeverShares` | services/appointment-service/internal/outbox/publisher.go:104-128 | a single publisher process never takes a held event, however slow it is and however often it crashes |
| `Pipeline.PromptPublishersNeverShare` | services/appointment-service/migrations/000005_outbox_bounded_retry.up.sql:24-30 | several publishers that settle within the one-minute lease do not either |
| `Pipeline.BatchIsRun` | services/appointment-service/internal/outbox/publisher.go:162-221 | the publisher's batch is a run of the system |
| `Pipeline.PublishedAndTerminal` | services/appointment-service/migrations/000003_outbox_publisher.up.sql:34-43 | a run of two publishers after which a row is both published and terminal |
| `CredentialDelivery.Store.Register` | services/auth-service/internal/repository/repository.go:59-92 | creates a pending account with the given hash and a required password change, or leaves an existing one alone |
| `CredentialDelivery.Store.Claim` | services/auth-service/internal/repository/repository.go:94-98 | takes a pending, failed or expired delivery for two minutes, and nothing else |
| `CredentialDelivery.Store.Mark` | services/auth-service/internal/repository/repository.go:100-106 | settles the delivery of the current token only |
| `CredentialDelivery.Store.Activate` | services/customer-service/internal/repository/repository.go:86-94 | installs the hash with 'sent' for the current token only |
| `CredentialDelivery.OneWinner` | services/auth-service/internal/service/service.go:83-150 | in every run at most one claim sets 'sent', after emailing; without resets the stored hash is the winner's and no other call's password works; the claim columns keep their constraint |
| `CredentialDelivery.SentIsFinal` | services/auth-service/internal/repository/repository.go:94-113 | after 'sent' no step changes status, winner or claim columns |
| `CredentialDelivery.WinnerWorksUntilReset` | services/customer-service/internal/repository/repository.go:118-123 | after 'sent' the winner's password stays valid if and only if no reset follows |
| `CredentialDelivery.WinnerStoredIff` | services/customer-service/internal/application/application.go:140-146 | in every run that delivers, the stored hash is the winner's if and only if no reset comes after the one step that stored it: the completion of a retry, but the Begin of the creator |
| `CredentialDelivery.ResetBeforeSent` | services/customer-service/internal/application/application.go:144-146 | a run that ends in 'sent' with an emailed password that is not the stored one |
| `CredentialDelivery.HolderWinsWithinLease` | services/auth-service/internal/repository/repository.go:94-98 | a holder that completes within its lease wins, whatever the other calls do meanwhile |
| `CredentialDelivery.ClaimGrantsLease` | services/customer-service/internal/repository/repository.go:66-75 | a call gets such a lease of two minutes if and only if the delivery was claimable |
| `CredentialDelivery.NeverStuck` | services/customer-service/internal/repository/repository.go:66-75 | an undelivered account can be claimed again from some time on, whoever crashed |
| `CredentialDelivery.RunKeepsInv` | services/customer-service/migrations/000007_tenant_session_rls_credential_constraints.up.sql:23-32 | a claim is complete while sending and absent otherwise, tokens and passwords stay apart, through every run |
| `TenantDomains.Service.VerifyDomain` | services/tenant-service/internal/service/service.go:189-228 | on the rows: an unverified domain becomes verified if and only if an answer is its stored hash; a mismatch is rejected and marks it failed with hash and flags unchanged; a verified domain is left alone with success; no other row or tenant changes |
| `TenantDomains.Service.ActivateDomain` | services/tenant-service/internal/service/service.go:230-243 | activates exactly a verified domain of an active tenant |
| `TenantDomains.VerifyAloneIsRun` | services/tenant-service/internal/service/service.go:189-228 | a verification with nobody else at work is a run Load, Lookup, Mark of the racing system with the same reply and table |
| `TenantDomains.CreateDomainStarts` | services/tenant-service/generated/queries.sql.go:107-119 | a new hostname of an active tenant starts unverified, pending and inactive with its hash, else nothing happens |
| `TenantDomains.DeactivateClears` | services/tenant-service/generated/queries.sql.go:183-187 | deactivation clears the flag of one domain of the tenant and nothing else |
| `TenantDomains.CreateTenantStarts` | services/tenant-service/migrations/000001_tenant_control_plane.up.sql:3-8 | a new tenant starts active |
| `TenantDomains.StatusOfOneTenant` | services/tenant-service/internal/repository/repository.go:197-197 | a status change is of one existing tenant and changes no domain |
| `TenantDomains.VerifiedNeverReverts` | services/tenant-service/generated/queries.sql.go:571-575 | in every run of racing verifiers verified never reverts, agrees with the state, implies that the hash is gone, and is implied by active; rows from before tokens are never verified |
| `TenantDomains.VerifiedExactly` | services/tenant-service/generated/queries.sql.go:633-640 | without such rows verified, state 'verified' and a missing hash are equivalent in every reachable state |
| `TenantDomains.VerifiedOnlyByProof` | services/tenant-service/internal/service/service.go:206-213 | a domain becomes verified only if some verifier saw a DNS answer for the hash it was registered with |
| `TenantDomains.MismatchAfterSuccess` | services/tenant-service/internal/service/service.go:214-227 | once the domain is verified, a verifier still at work can only report success, whatever it saw |
| `DomainCache.Resolver.ResolveDomain` | services/tenant-service/internal/repository/repository.go:38-61 | a hit answers from the cache, a miss from the rows: a resolution if and only if the host is a verified, active domain of an active tenant; only positive answers are cached, and agreement with the database is kept |
| `DomainCache.Resolver.ChangeTenantStatus` | services/tenant-service/internal/repository/repository.go:190-238 | removes exactly the entries whose delete succeeded; if all did, the cache agrees with the database afterwards |
| `DomainCache.InvalidationSuffices` | services/tenant-service/internal/repository/repository.go:332-413 | no update changes the answer of a hostname it does not invalidate |
| `DomainCache.BoundedStaleness` | services/tenant-service/internal/repository/repository.go:38-61 | in every run, with failed deletes and straddling reads, a positive answer was true of the rows, tenant status included, within the last 5 minutes plus the read-to-set gap, and a negative answer is true of them at its very time |
| `DomainCache.ResolveServes` | services/tenant-service/migrations/000004_tenant_onboarding_domains.up.sql:53-68 | a host resolves to a tenant and type if and only if it is a verified, active domain of that tenant and type and the tenant is active |
| `DomainCache.SuspendedNeverServed` | services/tenant-service/internal/repository/repository.go:190-238 | once a suspension has done its deletes and nobody is about to cache a host of the tenant, every later lookup of its hosts answers not found until it is active again |
| `DomainCache.SuspensionDarkens` | services/tenant-service/internal/repository/repository.go:204-236 | a suspension with all its deletes done brings that about |
| `DomainCache.RunKeepsFresh` | services/tenant-service/internal/repository/repository.go:38-61 | every cached entry and every value about to be cached was the database's answer when it was read, within the time bound, through every run |
| `DomainCache.ReliableRunsStayCoherent` | services/tenant-service/internal/repository/repository.go:332-413 | with successful deletes and no update of a host between the query and the set of its reader, every entry equals the database or is about to be deleted |
| `DomainCache.StraddleIff` | services/tenant-service/internal/repository/repository.go:49-59 | with any updates and all their deletes between a reader's query and its set, the cache is coherent afterwards if and only if the updates leave the answer of its host as it was |
| `DomainCache.StraddledUpdateIff` | services/tenant-service/internal/repository/repository.go:49-59 | for one update in between: stale if and only if it changes the answer of the host that was read |
| `DomainCache.StraddlingReadGoesStale` | services/tenant-service/internal/repository/repository.go:49-59 | a run in which a straddling read restores a deactivated domain |
| `RateLimit.Limiter.Allow` | platform/ratelimit/redis.go:15-27 | a living counter goes up and keeps its expiry, a missing or expired one restarts at 1 with the window in milliseconds; allowed if and only if the count is within the limit; other keys are untouched |
| `RateLimit.WindowLasts` | platform/ratelimit/redis.go:15-19 | a call belongs to the running window exactly while the window's time has not passed since its first call |
| `RateLimit.FirstCallsAllowed` | platform/ratelimit/redis.go:15-19 | of each window exactly the first limit calls are allowed |
| `RateLimit.TwoWindows` | platform/ratelimit/redis.go:15-19 | a span no longer than the window meets at most two windows |
| `RateLimit.AtMostTwiceTheLimit` | platform/ratelimit/redis.go:15-19 | any span of calls no longer than the window has at most 2 x limit allowed ones |
| `RateLimit.NeverLimits` | platform/ratelimit/redis.go:21-22 | with a window under a millisecond any number of calls in one millisecond is allowed |
| `RateLimit.LimitsIff` | platform/ratelimit/redis.go:21-22 | that bound holds for a policy if and only if its window does not truncate to zero milliseconds or it allows nothing |
| `Backoff.DelayIsCappedExponential` | platform/email/sender.go:75-79 | for every attempt number the wrapped and capped shift is min(200 ms x 2^n, 2 s) |
| `Backoff.SendWithRetry` | platform/email/sender.go:47-69 | at most max(1, attempts) sends, only temporary failures before the last, the result of the last send or a cancellation, and no more waiting than the sum of the delays |
| `Backoff.TotalDelay` | platform/email/sender.go:31-40 | all delays in closed form: 200, 600 and 1400 ms, then 3 s and 2 s more for each further failure |
| `Backoff.ThreeAttempts` | platform/email/sender.go:31-36 | the three attempts that callers make add at most 600 ms |
| `Migrations.Migrator.Apply` | platform/migrate/migrate.go:42-78 | one run, stopped at any entry, keeps what was applied and adds only .up.sql files of the directory; a run that is not stopped applies all of them |
| `Migrations.LessMeaning` | platform/migrate/migrate.go:46-46 | name order: at the first difference the smaller character or the end comes first |
| `Migrations.VersionsMembers` | platform/migrate/migrate.go:48-51 | the versions are those of the files, not directories, that end in .up.sql |
| `Migrations.SortSorts` | platform/migrate/migrate.go:46-46 | the entries in strictly ascending name order, the same ones |
| `Migrations.CompleteRunIff` | platform/migrate/migrate.go:47-77 | a complete run ends with every file once in name order if and only if what was applied before is a prefix of that order |
| `Migrations.InterruptedRunsLeavePrefix` | platform/migrate/migrate.go:47-77 | runs stopped anywhere leave a prefix of the name order of the last directory |
| `Migrations.Restartable` | platform/migrate/migrate.go:42-78 | any number of runs stopped anywhere, on directories that grew only by later names, then one complete run, leave a log of exactly the .up.sql files of the last directory, each once, in name order |
| `Migrations.LateInsertion` | platform/migrate/migrate.go:52-58 | a file inserted before an applied one is executed after it |
| `Members.Service.ChangeMember` | services/auth-service/internal/service/service.go:168-200 | succeeds exactly for an owner acting on another member who is no owner, with a staff role; then the role or the status of that member alone changes; owners keep role and status |
| `Members.OwnersNeverChange` | services/auth-service/internal/service/service.go:168-200 | the owner memberships with their status are the same after every interleaving of registrations, checks and unguarded updates |
| `Members.RegisterAdds` | services/auth-service/internal/repository/repository.go:80-84 | registration adds an active member with the role asked for, or leaves an existing one alone |
| `Members.TriggerNeverFires` | services/auth-service/migrations/000004_membership_role_management.up.sql:3-25 | the last-owner trigger never has to refuse an update that passed its check |

## Assumptions

- A transaction, a single SQL statement and the limiter's script are atomic; an insert waits for uncommitted rows it
  could conflict with; the advisory lock is on a hash of the key that different keys may share.
- Passwords, claim tokens and ids are fresh; password hashes, verification hashes and name-based UUIDs (section 5.5 of
  RFC 9562) are injective.
- Instants are integers; local midnight and the next one are given. Row ids of outbox events are their order of commit.
- A row of `claim_outbox_events` is any claimable one, because locked rows are skipped; the stream keeps what the broker
  stored.
- A domain's hostname stands for its id, since hostnames are unique and never change.
- The reminder offsets are whatever each delivery reads. `CancelledStaysSilent` and `SilentWithWorkerIff` assume that
  later deliveries of the appointment's planning events read no offset that the handled ones had not read, and looked at
  the clock no earlier.
- A password change by the user counts as a reset in `CredentialDelivery`; like every password in a run it is new.
- `CredentialDelivery` covers both services at once: a call may stop after any step, which includes the return of
  auth-service's registration when it loses the race to create the identity.

## Left out

- HTTP handlers, gateway routing, the web applications, metrics, tracing, configuration and process start-up: no state
  worth proving anything about.
- PostgreSQL, Redis, NATS and SMTP themselves beyond the step contracts above; isolation levels; connection retries.
- The app type that the availability client passes on (services/appointment-service/internal/client/dependencies.go:59-63):
  the two services are composed in the booking context only.
- A retry that misses in Replay can still get a conflict from the availability check; idempotency is therefore stated
  for successful calls only.
- Time zone rules, e-mail and phone validation, price patterns, catalog, branch and barber records, role predicates:
  only easy members.
- Tenant settings: merging, validation and their write-through cache would only add easy members.
- Sessions, login, password comparison, cookies: opaque values.
- The delivery worker's loop and retry schedule; its claim and finish statements are in the model, one row at a time.
- Batch limits and the order inside `claim_email_notifications` and the retention cleanups: any eligible rows may be
  chosen.
- Saving, listing and deleting overrides and blocked periods: plain row operations.
