# JobTrack: verified models of its protocols

Dafny models of the parts of JobTrack whose guarantees have to hold over every run, with proofs of those
guarantees. Check everything with `dafny verify dfyconfig.toml`.

| files | subject |
|---|---|
| RetryBackoff, OutboxTable, OutboxProtocol, OutboxWorker | the e-mail outbox: leases, fencing, retries with jitter |
| Sessions, SessionRuns, SessionOutcomes, ActiveSessions | refresh-token families (section 4.14.2 of RFC 9700), password reset, the session list |
| BrowserTab, TabAndServer | the browser's single-flight refresh, and the browser composed with the server |
| Tracker, TrackerRequests, TrackerRules, TrackerRuns, TrackerService, OwnerIsolation | companies, jobs, applications, interviews; owner isolation |
| InterviewRace, ApplicationRace | the same with checks and commits interleaved |
| Dashboard, DashboardCache, DashboardCacheRuns | the aggregate and its cache |
| RateLimit | the in-memory and the Redis fixed-window limiter against one log |
| Mfa, MfaService, MfaRuns, MfaOutcomes | TOTP (RFC 6238), recovery codes, login challenges |
| OidcUsername, Oidc, OidcService, OidcRuns, OidcOutcomes | username allocation, external identities, single-use transactions |
| Common | options, duplicate-free sequences, counting |

How a part is modelled. A plain function says what one committed transaction does to the tables. Where the
code changes things step by step, a class with the same steps, fields and loops is proved to do exactly that.
A state machine (`Next`, `Run`) then takes any sequence of such steps, in which a step that is not enabled
changes nothing, and the main results are lemmas about `Run` for every sequence. The modules named Outcomes
and Rules say when each operation gives which answer and what it writes, in the fields of the rows and, over
runs, in the events alone, so that they stand beside the functions instead of on them. The table below lists a
class method where it holds a loop, a rollback or a write before a check; the plain handlers beside them are
proved equal to their functions in the same way, and the table names the lemmas about those functions. Clocks, generated values,
jitter bytes, one-time passwords, message delivery and failures are inputs.

## What holds only with a condition

Some properties one would expect are false of the code as it is. Each item says what is proved about it.

- A refresh token is presented once, unless the page is reloaded while a refresh that presents the stored
  token is pending: the promise lives in memory, the token in session storage. If and only if:
  `TabAndServer.ReloadExactly`; a run: `TabAndServer.UnsafeReloadIsDetected`.
- An unused TOTP step is accepted, unless a used step of the window has the same six digits: the search
  stops at the first match. If and only if: `Mfa.SearchExactly`; an authenticator: `Mfa.CollisionIsRefused`.
- `deadline >= applied_at` holds when requests are serial. Updates read the row without a lock and no
  table constraint guards the dates, so interleaved requests can break it. ADR 0005 says that metadata
  edits need no protection because the row lock of the status change covers the important invariant; the
  order of the dates is not covered. Over whole runs, if and only if: `ApplicationRace.OrderBreaksExactly`; a
  run: `ApplicationRace.OrderCanBreak`.
- Feedback belongs to completed interviews when requests are serial; two updates that loaded the same scheduled
  interview can leave a cancelled one with feedback. Over whole runs, if and only if:
  `InterviewRace.FeedbackBreaksExactly`; a run: `InterviewRace.FeedbackCanBreak`.
- A dashboard is current unless commits of its owner took effect between its aggregation and the answer and
  change it. If and only if: `DashboardCache.CurrentExactly`; the two ways this happens:
  `DashboardCache.MissedCommitCauses`; a run for each: `DashboardCacheRuns.OverlapServesStale` and
  `DashboardCacheRuns.FailedInvalidationServesStale`. Its age is bounded in every case:
  `DashboardCache.ServedAgeIsBounded`.
- A message may be claimed more than `MAX_ATTEMPTS` times, since the claim does not look at the limit. The
  number of claims is an equation, retries plus recovered leases plus the open or final claim, with fewer
  than `MAX_ATTEMPTS` retries: `OutboxProtocol.MessageAccounts`; a run for every number of claims:
  `OutboxProtocol.RecoveryPassesAnyLimit`.
- The in-memory limiter allows `limit` checks per window, and one more when the two clock readings of a
  check lie on both sides of a window boundary. The exact number in both cases: `RateLimit.AllowedInWindow`.
- A generated username fits its 50 characters if and only if its number has at most 49 digits, since the
  slice that makes room for the suffix turns negative after that: `OidcUsername.LengthExactly`. A run that gets
  there needs 10 to the 49 accounts and is not spelled out.

## Assumptions

- Each transaction is one atomic step except in InterviewRace, ApplicationRace, DashboardCache and the
  outbox, where the steps of one operation interleave. PostgreSQL's READ COMMITTED is finer for bulk updates:
  a token inserted by a transaction that commits after a concurrent bulk revocation has read is not revoked
  by it, and two unlocked password logins can each leave an open MFA challenge. The results about families,
  resets and challenges assume this does not happen. The queries of one dashboard read one snapshot.
- Hashes, encryption and key derivation are injective where uniqueness matters; generated tokens, secrets,
  family ids and row ids are values that were not used before.
- Worker ids differ, and one tab's refresh tokens are presented by that tab alone.
- Settings lie in the ranges that settings validation enforces.

## Model

| member | source | states |
|---|---|---|
| RetryBackoff.DelayBounds | src/app/services/outbox_worker.py:163-186 | For any jitter digest the delay lies between base and maximum, and at most one base above the capped exponential. |
| RetryBackoff.DelaysExactly | src/app/services/outbox_worker.py:163-186 | Over all digests an attempt can draw exactly the delays from its exponential upwards by at most the base and a quarter of it, but always one second, cut at the maximum. |
| RetryBackoff.DelayMonotone | src/app/services/outbox_worker.py:167-186 | Delays never shrink from an attempt to a later one, whatever the digests of the two attempts are. |
| RetryBackoff.DelayNeverShrinks | src/app/services/outbox_worker.py:172-186 | The jitter of one attempt cannot overtake the delay of the next. |
| RetryBackoff.DelaySaturates | src/app/services/outbox_worker.py:183-186 | Once the exponential reaches the maximum, every later delay is exactly the maximum. |
| OutboxTable.MessageTable.ClaimMessages | src/app/services/outbox_worker.py:41-105 | The loop over the batch leases exactly the rows of the batch, adds one attempt to each, and returns snapshots that carry the new attempt count and whether a lease was recovered. |
| OutboxTable.BatchExists | src/app/services/outbox_worker.py:52-73 | The claim query (claimable, unlocked, ordered, limited) has an answer whatever rows other transactions hold locked. |
| OutboxTable.ClaimOrder | src/app/services/outbox_worker.py:55-73 | A claimed row precedes, by availability and then creation, every claimable row others have not locked; one is left out only by a full batch. |
| OutboxTable.MessageTable.UpdateOwned | src/app/services/outbox_worker.py:108-124 | The guarded update changes the row if and only if it is still processing under this owner, and reports which. |
| OutboxTable.MessageTable.MarkFailed | src/app/services/outbox_worker.py:189-249 | Stale exactly when the row is no longer owned, retried exactly when owned, retryable, attempts are left and the payload is in time, otherwise dead letter; the table is updated accordingly. |
| OutboxTable.FailureExactly | src/app/services/outbox_worker.py:189-249 | Field by field: a failed row is pending again exactly when retryable, with attempts left and in time, keeping payload and count; otherwise dead letter without payload; either way the lease ends and the category is recorded. |
| OutboxTable.RetryWaitsForBackoff | src/app/services/outbox_worker.py:57-58 | A retried message becomes claimable exactly when its delay has passed: never before the base, always after the maximum. |
| OutboxTable.LeaseProtects | src/app/services/outbox_worker.py:61-62 | A claimed row is claimable again exactly from the end of its lease. |
| OutboxProtocol.Fencing | src/app/services/outbox_worker.py:50-124 | After any run of any number of workers with crashes and late wake-ups, an event changes an existing row only by a claim of a claimable row, or by a settlement; a settlement changes a row if and only if it is for that row, the row is processing and the worker's snapshot holds its latest claim, which then has not settled before. |
| OutboxProtocol.MessageAccounts | src/app/services/outbox_worker.py:77-84 | In every run: the table constraints hold, attempt_count is retries plus recovered leases plus the open or final claim, retries stay below MAX_ATTEMPTS, so without lease expiry there are at most MAX_ATTEMPTS claims; every retried claim was sent and not delivered; no claim is sent twice and a succeeded message was delivered. |
| OutboxProtocol.TerminalIsFinal | src/app/services/outbox_worker.py:108-124 | No event touches a succeeded or dead-letter row again. |
| OutboxProtocol.RecoveryPassesAnyLimit | src/app/services/outbox_worker.py:60-64 | The claim does not look at the attempt limit: for every n there is a run of crashes that takes attempt_count to n. |
| OutboxProtocol.SettlesOwnLatestClaim | src/app/services/outbox_worker.py:108-124 | A worker owns the row of its current message exactly when its snapshot is the latest claim and the row is processing. |
| OutboxProtocol.RunKeepsInv | src/app/models/outbox_message.py:12-32 | The books of every message and the hand of every worker stay consistent over every run, table constraints included. |
| OutboxWorker.Worker.ProcessMessage | src/app/services/outbox_worker.py:325-400 | Stale exactly when the row is not owned; succeeded exactly when the payload was in time, decrypted and was sent; retried exactly when only the sending failed, attempts are left and the payload is still in time at settlement; otherwise dead letter. |
| OutboxWorker.SettlementExactly | src/app/services/outbox_worker.py:325-400 | Field by field: when a processed row ends succeeded, pending or dead letter, and with which category: expired, invalid payload, mail server, or none. |
| OutboxWorker.Worker.RunOnce | src/app/services/outbox_worker.py:274-294 | The sequential loop over the batch, with stop requests arriving between messages, ends with the rows of the batch processed in order until the grace period is over. |
| OutboxWorker.RunOnceIsAPath | src/app/services/outbox_worker.py:274-294 | An undisturbed run_once takes the rows where one path of the protocol takes them, so the theorems about runs cover the code. |
| OutboxWorker.GraceEndsTheBatch | src/app/services/outbox_worker.py:268-294 | The loop settles exactly the messages before the first turn at which the grace, counted from the first stop signal by then, is over. |
| Sessions.Find | src/app/auth/refresh.py:55-60 | The look-up answers a record with the token, or none when no record has it. |
| Sessions.SessionStore.BulkRevoke | src/app/auth/refresh.py:28-46 | The bulk update revokes exactly the unrevoked records in scope, with one time and reason. |
| Sessions.SessionStore.Refresh | src/app/auth/refresh.py:49-144 | All six outcomes of a refresh: unknown, replayed (family revoked), expired, user missing, account disabled (all sessions revoked), rotated. |
| SessionOutcomes.RefreshExactly | src/app/auth/refresh.py:49-128 | In every run each of the five answers comes exactly in its case: rotated if and only if some unrevoked record with the token is not past its expiry and its user exists and is active; expired, missing user and inactive user likewise; invalid when every record with the token, if any, is revoked. |
| SessionOutcomes.RefreshOfRecord | src/app/auth/refresh.py:68-108 | What each answer changes: a revoked token revokes its family as reused, an inactive account all sessions of that user, an expired token or a missing user nothing. |
| SessionOutcomes.NoRotationAfterExpiry | src/app/auth/refresh.py:85-128 | Over every run a rotated record was revoked at or before its expiry. |
| SessionOutcomes.LoginExactly | src/app/services/session_issuance.py:17-62 | A login is accepted exactly for an existing active user, and then appends this one live record and changes nothing else. |
| SessionOutcomes.RevocationsExactly | src/app/services/sessions.py:52-88 | Ending one session revokes exactly the live records of that user and family, ending all those of the user, with their reason. |
| Sessions.SessionStore.Confirm | src/app/services/password_reset.py:72-142 | A confirmed reset sets the password, enables password login, consumes every open reset of the user and revokes every session; anything else changes nothing. |
| SessionOutcomes.ResetIssuedExactly | src/app/services/password_reset.py:24-69 | A reset secret is issued exactly to an active user with a verified address; it lasts its lifetime and every earlier open secret of the user is consumed. |
| SessionOutcomes.ResetConfirmedExactly | src/app/services/password_reset.py:72-142 | A reset is confirmed if and only if its secret is unconsumed and in time and its user is active with the verified address it was sent to; every field of every row afterwards. |
| SessionOutcomes.ResetFollowsRequest | src/app/services/password_reset.py:89-138 | Over every run a confirmed reset was requested for that user less than its lifetime ago. |
| SessionRuns.FamiliesAreChains | src/app/auth/refresh.py:120-128 | In every run, for every record: it is rotated exactly when another of its family comes after it; so only the last of a family can be live and there is at most one live token; users and families do not mix and no token repeats. |
| SessionRuns.RevocationIsFinal | src/app/auth/refresh.py:35-46 | Records are append-only and a revoked record is never rewritten: time and reason are written once. |
| SessionRuns.DeadFamiliesStayDead | src/app/auth/refresh.py:68-83 | A family without a live token never gets another record, on any path. |
| SessionRuns.ReplayKillsFamily | src/app/auth/refresh.py:68-83 | Replaying a revoked token revokes the one live record of its family as reused, changes no other record, and the family stays dead. |
| SessionRuns.RotationMovesTheLiveToken | src/app/auth/refresh.py:110-128 | A successful refresh retires exactly the presented record and appends the family's only live one, on the same device and user. |
| SessionRuns.LogoutEndsFamily | src/app/auth/refresh.py:147-179 | Logging out with any token of a family, revoked or not, revokes its live record as logged out, leaves every other family alone, and the family stays dead on all later paths. |
| SessionRuns.FindIsExact | src/app/auth/refresh.py:55-60 | On reachable records a token finds its own record. |
| SessionRuns.ResetEndsSessions | src/app/services/password_reset.py:115-138 | After a reset every family of the user is dead on every later path, and the password is the new one. |
| SessionRuns.SpentStaysSpent | src/app/services/password_reset.py:89-97 | A consumed reset secret is refused on every later path. |
| SessionRuns.ResetWorksOnce | src/app/services/password_reset.py:118-126 | After one reset no secret then outstanding for the user is ever accepted. |
| SessionRuns.NextKeepsChains | src/app/services/sessions.py:65-88 | Every operation, revocations by user and by family included, keeps families chains. |
| ActiveSessions.ListActiveSessions | src/app/services/sessions.py:17-49 | The grouping loop lists exactly one entry per family of the user with a live unexpired token, newest use first, with the family's first creation, last use, and the expiry and device of its only live token. |
| ActiveSessions.OneLiveRecord | src/app/services/sessions.py:38-45 | In a chain there is one unrevoked record, so taking the latest use or the maximum expiry of the active records picks that one. |
| BrowserTab.TabSession.RefreshSession | frontend/src/features/auth/session.ts:40-72 | Joins the refresh under way, or starts one and puts the stored token on the wire. |
| BrowserTab.TabSession.OnUnauthorized | frontend/src/features/auth/session.ts:88-90 | A 401 without a stored token starts nothing. |
| BrowserTab.TabSession.OnRefreshReply | frontend/src/features/auth/session.ts:51-62 | A reply stores the new pair; a refusal or a network failure clears the session. |
| BrowserTab.OneRequestPerRefresh | frontend/src/features/auth/session.ts:65-72 | However many requests fail with 401 together, the stored token goes out once, and nothing goes out while a refresh is under way or no token is stored. |
| BrowserTab.RefreshRound | frontend/src/features/auth/session.ts:24-72 | A full round: after a successful reply and the clean-up, the next failures present exactly the token that came with the reply, once; after a refusal no token is left and nothing is presented. |
| TabAndServer.AccessNeedsStored | frontend/src/features/auth/session.ts:24-34 | In every run of tab and server, unsafe reloads included, an access token is held only beside a stored refresh token. |
| TabAndServer.NoTokenIsPresentedTwice | frontend/src/features/auth/session.ts:40-96 | In every run of tab and server with overlapping 401s, logins, logouts, lost replies and other clients, with safe reloads only, no refresh token is presented twice and no record of the tab's sessions is revoked as reused. |
| TabAndServer.ReloadExactly | frontend/src/features/auth/session.ts:8-18 | A page reload keeps that guarantee on all continuations if and only if the stored token is not the one a pending refresh is presenting. |
| TabAndServer.UnsafeReloadIsDetected | frontend/src/features/auth/auth-context.tsx:58-74 | A concrete history: reload while a refresh is answered but not delivered; the restored tab presents the token again and the server revokes the family as reused. |
| TabAndServer.PresentedTokenIsClean | src/app/auth/refresh.py:68-83 | A token on the wire was never rotated, and if revoked its family is already dead, so serving it marks nothing as reused. |
| TrackerService.Store.ChangeStatus | src/app/services/application_service.py:169-214 | All steps of a status change with the locked row: the refusals without effect, the dated row and its one history row. |
| TrackerRules.ChangeStatusExactly | src/app/services/application_service.py:31-205 | Refused as invalid exactly when the target is not the next of the five stages, withdrawn before an offer, rejected once applied, or archived at an end; refused for its dates exactly when today is past the deadline of a first application; otherwise every field of the row, and one history row. |
| TrackerRules.StagesInOrder | src/app/services/application_service.py:31-60 | In every run an application reached offer only through interviewing and that only through screening; every recorded transition is permitted and starts where the one before it ended. |
| TrackerRules.UpdateApplicationExactly | src/app/services/application_service.py:141-166 | When an update is refused for its dates, for a date on a saved application or for a missing one, and what it writes otherwise. |
| TrackerRules.UpdateJobExactly | src/app/services/job_service.py:85-112 | An update is refused exactly for a company that is not the owner's or for crossed salary bounds, given or kept; otherwise the row it writes. |
| TrackerRules.UpdateInterviewExactly | src/app/services/interview_service.py:153-198 | Refused exactly for a status change of an interview that is not scheduled, for feedback before completion, or for sharing time with another scheduled interview of the owner; otherwise the row it writes, its end included. |
| TrackerRules.CreateInterviewExactly | src/app/services/interview_service.py:55-94 | Refused exactly when the application is not in screening, interviewing or offer, or the time is shared; otherwise the row it writes. |
| TrackerRules.CreateApplicationExactly | src/app/services/application_service.py:70-97 | Refused exactly when the job has an application or the dates clash; otherwise the row it writes, dated today when applied without a date. |
| TrackerRules.ApplicationsListed | src/app/repositories/application_repository.py:84-96 | An application is listed exactly to its owner, when its job is at the company asked for and it passes the other filters. |
| TrackerService.Store.SearchOverlap | src/app/repositories/interview_repository.py:90-112 | The scan over the rows in the bounded window answers whether any scheduled interview of the owner overlaps. |
| TrackerRequests.DeletesRefusedExactly | src/app/services/company_service.py:105-118 | Companies, jobs and applications are refused deletion exactly when a foreign key would lose its parent. |
| TrackerRequests.CompanyRefusedExactly | src/app/services/company_service.py:22-41 | Where the two ways to normalise a name agree, a company is refused exactly when it would break the unique index. |
| TrackerRequests.ApplicationRefusedExactly | src/app/services/application_service.py:70-97 | With the default applied date, an application is refused exactly when it would be the second for its job or its dates would be out of order. |
| TrackerRequests.InterviewRefusedExactly | src/app/services/interview_service.py:55-94 | A valid interview is refused exactly when its application is not eligible or the exclusion constraint would fail. |
| TrackerRequests.WriteThenRead | src/app/services/job_service.py:31-128 | Round trip: after any create, update or status change the owner reads back exactly what it answered, after a deletion nothing; an unsuccessful request changes nothing. |
| TrackerRequests.OthersKept | src/app/services/interview_service.py:55-209 | A request leaves every row and history but those it is about as they are, in all tables. |
| TrackerRequests.PatchWritesItsFields | src/app/services/application_service.py:141-166 | A partial update sets the given fields and no others; an ordinary application update cannot change the status. |
| TrackerRuns.HistoryIsAPath | src/app/services/application_service.py:31-60 | In every run an application's history, empty or not, is a repetition-free path of at most five allowed steps from saved or applied to its current status. |
| TrackerRuns.ReachableRows | src/app/services/application_service.py:147-156 | In every run, field by field: saved means no applied date, the five active statuses mean one, no deadline lies before it; interviews last 15 to 480 minutes and end accordingly, belong to an application of the same owner with a step to screening, carry feedback only when completed, and no two scheduled ones of an owner share time. |
| TrackerRuns.AppliedDateStays | src/app/services/application_service.py:153-156 | While an application exists its applied date is never cleared, its history only grows, and owner and job stay. |
| TrackerRuns.BoundedSearchIsExact | src/app/repositories/interview_repository.py:90-112 | On rows that meet the table's constraints the 480-minute bounded search answers exactly as a full scan over all rows does. |
| TrackerRuns.CheckedRowFits | src/app/services/interview_service.py:66-71 | A row that passed the search clashes with no stored row. |
| TrackerRuns.ScreenedOnTheWay | src/app/services/interview_service.py:31-37 | Every status in which interviews may be created has screening behind it. |
| TrackerRuns.OfferIsScreened | src/app/repositories/dashboard_repository.py:74-81 | A path through the graph that reached offer reached screening before. |
| TrackerRuns.PathClimbs | src/app/services/application_service.py:31-60 | Each step of the graph climbs, which is why no status repeats. |
| TrackerRuns.RunKeepsInv | src/app/models/interview.py:75-104 | The database invariant, constraints included, holds after every sequence of requests. |
| InterviewRace.ChecksAgree | src/app/models/interview.py:90-104 | With check and commit as separate interleaved steps, scheduled interviews of an owner stay disjoint in every reachable state, and bounded search, full scan and exclusion constraint agree there. |
| InterviewRace.SerialCommitSucceeds | src/app/services/interview_service.py:66-86 | A commit right after its clean check never trips a constraint. |
| InterviewRace.CheckAloneIsNotEnough | src/app/services/interview_service.py:87-91 | Two transactions that both check first: both checks are clean and one commit is refused. |
| InterviewRace.StaleEndIsRefused | src/app/models/interview.py:94-97 | A duration change computed from a start that was moved meanwhile is refused by the window constraint, whatever the values. |
| InterviewRace.RunKeepsInv | src/app/models/interview.py:90-104 | Disjointness and derived ends hold in every interleaving. |
| InterviewRace.FeedbackBreaksExactly | src/app/services/interview_service.py:169-188 | A run keeps feedback on completed interviews only, in every state it passes, if and only if none of its commits takes the feedback from one transaction and a status other than completed from another. |
| InterviewRace.FeedbackCanBreak | src/app/services/interview_service.py:161-171 | A concrete run: two updates load a scheduled interview, one completes it with feedback, the other cancels it; both commit and the cancelled interview keeps the feedback. |
| ApplicationRace.StatusDatesSurvive | src/app/services/application_service.py:153-156 | Updates read without a lock: even so, in every interleaving the applied date fits the status. |
| ApplicationRace.OrderBreaksExactly | src/app/services/application_service.py:147-160 | A run keeps every deadline on or after its applied date, in every state it passes, if and only if none of its commits writes one of the two dates after another transaction moved the other across it. |
| ApplicationRace.ActKeepsOrder | src/app/services/application_service.py:70-97 | Creations, status changes, deletions and every request other than an update keep all rows in order under any interleaving. |
| ApplicationRace.OrderCanBreak | src/app/services/application_service.py:169-205 | A concrete run: a deadline update checked while the application is saved, a status change to applied, then the commit; deadline day 5, applied day 9. |
| OwnerIsolation.NonInterference | src/app/services/application_service.py:70-238 | For any request of A and two databases that agree on A's rows, the answers are equal and the results agree on A's rows. |
| OwnerIsolation.ExecOnView | src/app/services/company_service.py:22-118 | A request answers and acts on A's own rows as it does on the full database. |
| OwnerIsolation.OthersUntouched | src/app/services/interview_service.py:55-209 | No request of A changes anything B can see. |
| OwnerIsolation.OnlyOwnCallsMatter | src/app/services/job_service.py:31-132 | Over whole runs: A's rows are those of the run in which everyone else's requests never happened. |
| OwnerIsolation.ForeignLooksMissing | src/app/services/application_service.py:99-103 | A request is answered not found exactly when a row it needs, parents named by an update included, is not the owner's; the answer is the one given where that row is in no table, and nothing changes. |
| Dashboard.BuildStatusCounts | src/app/repositories/dashboard_repository.py:50-53 | The counting loops give every status a count, zero when no row was grouped. |
| Dashboard.ComputeSummary | src/app/repositories/dashboard_repository.py:33-135 | The summary computed from the query answers is the aggregate. |
| Dashboard.CountsPartition | src/app/repositories/dashboard_repository.py:45-53 | The per-status counts add up to the number of the owner's applications. |
| Dashboard.CountsExactly | src/app/repositories/dashboard_repository.py:34-61 | Companies, jobs, each status and the last seven days are counted over exactly the owner's rows. |
| Dashboard.HalvesGoToEven | src/app/repositories/dashboard_repository.py:85-87 | The rate is rounded to a nearest step of four decimals, from the middle to the even one. |
| Dashboard.OffersAreCounted | src/app/repositories/dashboard_repository.py:61-86 | On reachable databases the distinct-over-outer-join count is the number of applications that ever reached offer, none is lost to the applied-date filter, and the rounded rate lies in [0, 1]. |
| Dashboard.RateInRange | src/app/repositories/dashboard_repository.py:83-86 | Rounding keeps the rate in range and within 0.00005 of the exact quotient; all or none stay exact. |
| Dashboard.FirstInOrder | src/app/repositories/dashboard_repository.py:99-120 | Each list holds qualifying rows in strict order of time and id, as many as fit into twenty, and no row that is left out comes before one that is shown. |
| Dashboard.AllShown | src/app/repositories/dashboard_repository.py:99-120 | While all qualifying rows fit, all are shown. |
| Dashboard.ActionsSplit | src/app/repositories/dashboard_repository.py:106-120 | No application is listed as overdue and as upcoming; every listed one is not closed and has a next action due within seven days; while at most twenty qualify for a list it shows exactly those. |
| Dashboard.InterviewsListed | src/app/repositories/dashboard_repository.py:89-105 | Only the owner's scheduled interviews that start within seven days are listed, at most twenty, and while at most twenty qualify all of them are. |
| Dashboard.DashboardIsolated | src/app/repositories/dashboard_repository.py:34-121 | The dashboard depends on the owner's rows alone. |
| DashboardCache.CacheStore.Get | src/app/services/dashboard_service.py:15-22 | Cache-aside: a hit is served as stored, otherwise the aggregate is served and stored. |
| DashboardCache.LookupFindsLastStore | src/app/services/dashboard_cache.py:40-93 | After any operations of any owners an answered lookup finds exactly the value of the owner's last successful store, if it has not expired and no successful invalidation or discarded payload came after it. |
| DashboardCache.ServedAgeIsBounded | src/app/services/dashboard_cache.py:71-75 | Under any interleaving and any Redis failure a served dashboard is the aggregate of a database of the run at the time it carries, and younger than the time to live plus the gap between its aggregation and its store. |
| DashboardCache.CurrentExactly | src/app/services/dashboard_service.py:15-22 | An answer is current if and only if the commits of its owner that took effect between its aggregation and itself leave the dashboard of the rows it was computed from as it is; with no such commit it is current. |
| DashboardCache.MissedCommitCauses | src/app/services/dashboard_service.py:15-22 | Such a commit exists if and only if one took effect while the read was on its way or after its value was stored; between the store and a hit no invalidation succeeded. |
| DashboardCache.MissedReplayed | src/app/services/company_service.py:33-34 | The owner's rows at a later event are those at an earlier one with the owner's commits in between replayed on them; commits of others do not show. |
| DashboardCacheRuns.SerialAnswersAreCurrent | src/app/services/dashboard_service.py:15-22 | When requests do not overlap and Redis works, every served dashboard is current. |
| DashboardCacheRuns.OverlapServesStale | src/app/services/dashboard_service.py:20-21 | With Redis working throughout, a read that aggregates before a commit and stores after its invalidation makes a later hit miss the new company. |
| DashboardCacheRuns.FailedInvalidationServesStale | src/app/services/dashboard_cache.py:83-91 | Without any overlap, a failed invalidation makes a later hit miss the new company. |
| RateLimit.RateLimiter.IsAllowed | src/app/middlewares/rate_limit.py:68-78 | Count, decision and retry time of one check, with its two clock readings. |
| RateLimit.MemoryDecides | src/app/middlewares/rate_limit.py:68-78 | With a non-decreasing clock the table with clean-up decides as a full log: allowed exactly while fewer than limit checks came before in the window; a check whose two readings straddle a boundary is always allowed. |
| RateLimit.AllowedInWindow | src/app/middlewares/rate_limit.py:68-78 | Exactly the first limit checks of a client and window are allowed, and one more exactly when one straddles; never more than limit plus one. |
| RateLimit.StoreIsExact | src/app/middlewares/rate_limit.py:30-43 | The Redis keys of current windows hold the exact counts and outlive their bucket. |
| RateLimit.KeysExpire | src/app/middlewares/rate_limit.py:30-43 | Every Redis key expires exactly two windows after one check of its client in its window, however many follow. |
| RateLimit.MemoryForgets | src/app/middlewares/rate_limit.py:60-78 | A check leaves in the table its own client and exactly those whose window was not over at the clean-up. |
| RateLimit.LimitersAgree | src/app/middlewares/rate_limit.py:107-115 | The Redis script decides by the full log, and both limiters give the same decision and retry time whenever the in-memory check does not straddle. |
| RateLimit.WholeSeconds | src/app/middlewares/rate_limit.py:34-41 | Whole-second integer arithmetic finds the same window and the same retry time as real arithmetic. |
| RateLimit.RetryLeavesWindow | src/app/middlewares/rate_limit.py:77-77 | The advertised time is the least number of whole seconds, and at least one, after which the next window has begun. |
| Mfa.MatchingTotpCounter | src/app/services/mfa.py:83-95 | The loop over the three offsets computes the search: the first matching step, refused when used. |
| Mfa.FoundIsFresh | src/app/services/mfa.py:89-94 | Only an unused step within one of the current one is accepted, and its password is the code (section 5.2 of RFC 6238). |
| Mfa.SearchExactly | src/app/services/mfa.py:89-95 | Accepts if and only if an unused step of the window matches and no used step of the window has the same password. |
| Mfa.DistinctWindowAccepts | src/app/services/mfa.py:89-95 | When the three passwords of the window differ, a step is accepted if and only if it is unused and has the code. |
| Mfa.CollisionIsRefused | src/app/services/mfa.py:91-93 | A concrete authenticator whose steps 0 and 1 share a password: step 1 is unused, has the code, and is refused because step 0 was used. |
| MfaService.MfaStore.ReplaceRecoveryCodes | src/app/services/mfa.py:114-119 | Old rows out, new rows in; rolled back if and only if a hash is taken or repeated. |
| MfaService.MfaStore.RevokeAll | src/app/services/mfa.py:143-148 | Revokes exactly the user's live sessions. |
| MfaService.MfaStore.VerifyLoginChallenge | src/app/services/mfa.py:346-398 | All checks in order on the stored rows, refusals without effect; success consumes the challenge and opens one session, after ending the others when a recovery code was used. |
| MfaOutcomes.AcceptsExactly | src/app/services/mfa.py:83-95 | A code is accepted if and only if the factor is available, an unused step whose thirty seconds are at most one step away has it as password, and no earlier used one has; in clock times. |
| MfaOutcomes.VerifyDoneExactly | src/app/services/mfa.py:346-398 | A login succeeds if and only if the factor is available, the token names an unconsumed challenge before its expiry, its user exists, is active and has the factor on, and a fresh code or an unspent recovery code of that user is given; otherwise nothing changes. |
| MfaOutcomes.VerifyExactly | src/app/services/mfa.py:346-380 | Which refusal is answered in which case, in the order of the checks. |
| MfaOutcomes.LoginWrites | src/app/services/mfa.py:375-393 | A login writes one session with the challenge's user, device and primary method, consumes the challenge, and stores the step or spends the recovery code and ends the user's other sessions. |
| MfaOutcomes.PrepareExactly | src/app/services/mfa.py:309-343 | A challenge is started exactly when the factor is available, expires after its lifetime, and consumes the user's other open ones. |
| MfaOutcomes.ConfirmExactly | src/app/services/mfa.py:203-232 | An enrolment is confirmed if and only if the user is active and not enrolled, it began less than its lifetime ago and the code is accepted; every field of the account and its recovery rows afterwards. |
| MfaOutcomes.RegenerateExactly | src/app/services/mfa.py:235-257 | Codes are drawn anew if and only if the user is active and enrolled and gives the password and an accepted code; what is written and which sessions end. |
| MfaOutcomes.DisableExactly | src/app/services/mfa.py:260-287 | The factor is switched off if and only if the user is active and enrolled and gives the password and an accepted code or an unspent recovery code; nothing of it is left. |
| MfaOutcomes.BeginExactly | src/app/services/mfa.py:170-190 | Enrolment begins if and only if the factor is available, the user is active, gives the password and is not enrolled. |
| MfaOutcomes.LoginFollowsStart | src/app/services/mfa.py:309-398 | Over every run, told by events: a login that finishes answers an earlier start of its token less than the lifetime ago, not answered and not superseded since, and opens the session of that start's user, device and primary method. |
| MfaOutcomes.ConfirmationFollowsBegin | src/app/services/mfa.py:170-232 | Over every run a confirmation rests on an enrolment begun for the user less than its lifetime ago, with the secret its code was made from. |
| MfaRuns.AcceptedCountersIncrease | src/app/services/mfa.py:219-227 | For each secret the steps accepted over any run by confirmation, login, regeneration and disabling strictly increase; each lies within one of the current step and has the submitted code. |
| MfaRuns.EnabledExactlyWithCodes | src/app/services/mfa.py:181-188 | In every run an account is off, pending or on, and on exactly when it has its full set of recovery rows, otherwise none. |
| MfaRuns.PhasesMoveInOrder | src/app/services/mfa.py:170-287 | In every run an account moves from off to pending only by starting enrolment, to on only by confirming, and back to off only by disabling. |
| MfaRuns.ConfirmDone | src/app/services/mfa.py:203-232 | A successful confirmation rests on a fresh matching step, stores it as the last one, and replaces the recovery rows. |
| MfaRuns.RegenerateDone | src/app/services/mfa.py:235-257 | A successful regeneration rests on a fresh matching step, never on a recovery code, and replaces the rows. |
| MfaRuns.FactorChecked | src/app/services/mfa.py:271-276 | A factor that passes is a fresh matching step of the account's secret or an unspent recovery code of the user. |
| MfaRuns.FactorChangeEndsSessions | src/app/services/mfa.py:250-283 | Disabling and regenerating leave the user no live session and touch no one else's. |
| MfaRuns.NewChallengeSupersedes | src/app/services/mfa.py:309-343 | A new challenge is the only open one of its user, across both purposes; other users' challenges stay as they were. |
| MfaRuns.RecoveryCodesSpentOnce | src/app/services/mfa.py:127-140 | Over any run no recovery code is accepted twice. |
| MfaRuns.OneChallengeOneSession | src/app/services/mfa.py:319-339 | In every run at most one challenge per user is open across both purposes, and each opens at most one session. |
| MfaRuns.ConsumedForGood | src/app/services/mfa.py:362-367 | A consumed challenge, used or superseded, never changes again and opens no further session. |
| MfaRuns.RecoveryLoginStandsAlone | src/app/services/mfa.py:375-393 | After a login by recovery code the new session is the user's only live one. |
| OidcUsername.NewUsername | src/app/services/oidc.py:161-172 | The search ends within one more candidate than there are users, with the first free candidate, of safe characters, at most 50 of them. |
| OidcUsername.SearchName | src/app/services/oidc.py:166-172 | The loop finds the first number whose candidate is free. |
| OidcUsername.CandidateInjective | src/app/services/oidc.py:169-170 | Different suffixes give different names, also against the bare base, so every candidate tried counts. |
| OidcUsername.TriedFit | src/app/services/oidc.py:168-171 | Pigeonhole: no more candidates than users can be taken. |
| OidcUsername.LengthExactly | src/app/services/oidc.py:170-170 | A numbered name fits the 50-character column if and only if its number has at most 49 digits. |
| OidcUsername.BaseIsShort | src/app/services/oidc.py:162-165 | The base has at most 43 characters, all safe, and starts with a letter or digit. |
| OidcService.IdentityStore.CompleteAuthorization | src/app/services/oidc.py:298-404 | All checks in order; any refusal rolls back, so the transaction stays open. |
| OidcRuns.AccountsStayReachable | src/app/services/oidc.py:428-442 | In every run names and addresses are unique, an account has one identity per provider, and every account keeps a password or an identity to sign in with. |
| OidcRuns.UnlinkRefusedExactly | src/app/services/oidc.py:416-446 | Unlinking is refused if and only if it would leave the account no password and no identity. |
| OidcRuns.LinkChangeEndsSessions | src/app/services/oidc.py:292-294 | A new link and a removed link end every session of the user and no other. |
| OidcRuns.NoTakeover | src/app/services/oidc.py:199-223 | An external login opens only the account its subject was linked to, or one created just now; existing accounts, and the owner of every link, are unchanged by it. |
| OidcRuns.SuccessConsumes | src/app/services/oidc.py:315-395 | A callback succeeds if and only if the transaction is unconsumed, before its expiry, of the presented browser and the configured issuer and redirect, the reply carries its nonce and a proper subject, and the account is admissible, each in the fields of the rows; it then consumes this transaction and no other, and otherwise changes nothing. |
| OidcOutcomes.CallbackFollowsStart | src/app/services/oidc.py:85-340 | Over every run, told by events: a callback that succeeds belongs to an earlier start with its state, the very browser presented, the nonce of the reply and the configured issuer, less than the lifetime ago, and no callback for the state succeeded since. |
| OidcOutcomes.LoginAnswers | src/app/services/oidc.py:184-243 | Which account an accepted login reaches, why it is refused, and every field of the account and link it creates. |
| OidcOutcomes.LinkAnswers | src/app/services/oidc.py:246-295 | Which of the three refusals a link gets exactly when, and what a new link writes. |
| OidcOutcomes.LoginOpensOneSession | src/app/services/oidc.py:366-385 | A login without a second factor appends exactly one live record on the device of its start; with one it opens none yet. |
| OidcRuns.CompletesOnce | src/app/services/oidc.py:354-355 | A completed transaction never completes again, whatever happens in between. |
| OidcRuns.ConsumedForGood | src/app/services/oidc.py:315-318 | A consumed transaction never changes again. |

## Left out

- HTTP routing, headers, authentication dependencies, metrics, logging and tracing: no invariant of their own.
- React components and forms; other tabs of the same browser, which have their own session storage.
- Cryptography, access-token claims and recent-authentication checks: stateless comparisons.
- OIDC discovery, key caches and token exchange: the provider's validated answer is an input; the refresh lock
  there is best effort and promises no exclusive fetch.
- Normalisation of names, addresses, client addresses and recovery codes: a name key is an arbitrary pair of
  functions for the database and the service, a submitted code carries both its readings.
- Ordering and paging of the list endpoints: their filters are modelled, the order is settled by reading the query.
- Interview list and upcoming queries beyond the owner filter; joined summaries show the parent rows only.
- Row columns without a rule, such as updated_at, trace context, message type and encryption version.
- Account deletion, e-mail verification and registration rules; an account appears in the models as a step.
- Parents and histories under interleaving: InterviewRace and ApplicationRace cover one table each; the rules
  across tables are proved for serial requests.
- SMTP, Redis and PostgreSQL internals: steps that succeed or fail, with the stated uniqueness, locks and expiry.
- OutboxWorker.Worker.RunOnce: the environment of each message (clock readings, decryption, the mail server, stop
  requests) is an input; other workers and unexpected exceptions, which drop the batch, are steps of
  OutboxProtocol and not of this method.
- Mfa.SearchCounter: the current step is taken from clock values after 1970, where truncation and floor agree.
- Challenges and reset tokens share one table in the program and are separate tables here, since no operation
  reads across the purposes.
- OidcService.IdentityStore.Open: the row of the MFA challenge it starts belongs to the Mfa model, where starting
  a challenge is the step Prepare.
- DashboardCache.CacheStore.Store: a payload over the size limit is a write that fails.
- Sessions.RefreshAccess: one clock reading serves a whole operation; the code reads the clock again, a moment after
  the expiry check, for the revocation time of a rotated token or a revoked family.
