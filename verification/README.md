# AgentMesh: a verified model of its core

This project models the parts of AgentMesh whose correctness is not visible in any one function, and proves what they
keep over all inputs, all runs or all interleavings. `dafny verify dfyconfig.toml` checks everything.

- **Escape normaliser** (`EscapeNormalizer.dfy`). One rewriting step collapses a `\uHHHH` escape of an ASCII character
  (section 7 of RFC 8259, with `u` in either case). The relation is shown to terminate and to be confluent, and the
  stack loop is shown to compute the unique normal form.
- **Trusted proxies** (`TrustedProxies.dfy`). Trust is specified by "the address shares the prefix", over 32 and 128 bit
  numbers (section 3.1 of RFC 4632, section 2.5.5.2 of RFC 4291). Intervals, sorting and the sweep occur only in the
  code, and the sweep is shown to decide exactly whether every IPv4 address is trusted.
- **Control plane** (`ControlPlane.dfy` and the six files on it). Eleven kinds of transactions as a step machine of SQL
  statements: locked rows, buffered writes, commits, errors and aborts. Each transaction knows only what its locks
  protect; what it knows stays true under the commits of the others. On that rest the project limit, the agreement of
  memberships, invitations and the log, and serializability: `ControlPlaneAlone.dfy` says what a transaction does alone,
  `ControlPlaneContract.dfy` when it succeeds, row by row, and `ControlPlaneSerial.dfy` that every interleaved run ends as
  the serial run in commit order.
- **Sessions** (`Sessions.dfy` and the five files on it) and **login attempts** (`OAuthAttempts.dfy`), in the same style,
  with a clock that never runs backwards and requests that read it before their transaction begins.
  `SessionExpiry.dfy` and `SessionRevival.dfy` say exactly when an expired session can come back, and
  `SessionsSerial.dfy` which transactions are serializable.
- **Mailbox** (`Mailbox.dfy`, `MailboxContract.dfy`, `MailboxHistory.dfy`, `InboxDraining.dfy`) and **blackboard**
  (`Blackboard.dfy`). Services with mutable tables, each request one atomic step, proved against functions on values; what
  the service promises is then proved over all runs of those functions.
- **Pulse** (`Pulse.dfy`, `PulseTree.dfy`, `PulseContract.dfy`). The grouping loops against a recursive tree, and the tree
  against the tables, the order of the query and the counters.
- **Paging** (`Paging.dfy`, `LivePaging.dfy`). The server's keyset and live pages composed with the browser's loops that
  drain them, while the table behind them changes.
- **Polling controller** (`Poller.dfy`, `PollerInvariant.dfy`, `PollerContract.dfy`). The browser's controller as an object
  with event handlers, where every `await` ends a step.
- **Rows shown** (`AdminViews.dfy`, `LiveRows.dfy`, `LiveRuns.dfy`, `FilteredRuns.dfy`). The controller beside the history of
  a project's tables: when the rows on the page are the end of what the server's query lets through.

Code and specification share the small tests and queries of the model. So that none of these can be wrong on both sides,
every operation also has a contract in terms of rows, numbers and code units alone: the files named `...Contract.dfy`, and
the members whose names end in `IsExact`.

## What turned out not to hold

- *An expired session never revives.* It can: `authenticate` reads the clock before it waits for the session's row, so a
  request from before the expiry can renew the session after it. `ExpiredSessionCanReturn` is such a run.
  `SessionRevival.RevivalIsExact` is the exact condition, for every reachable state: the session becomes usable again in
  some run if and only if it is not revoked and requests in flight, one after the other, renew its row beyond the present.
  One such request is enough, and two can do what none does alone: `OneRequestIsEnough`, `RevivalMayTakeTwoRequests`. For
  being authenticated, rather than usable, the condition is `ExpiryIsFinalUnlessExposed`.
- *A live session is accepted.* For the same reason an earlier request that waits behind a later one is rejected, because
  the row was last seen in its future: `OverlappingRequestIsRejected`. `WaitingRequestIsAccepted` is the exact condition
  for a request that waited: no revocation, no blocking and no touch later than its clock.
- *An attempt is returned once.* Over several calls it is; within one call, a cookie presented twice is answered twice:
  `RepeatedCookieIsAnsweredTwice` is a run from an empty start. `AnsweredOnceUnlessRepeated` is the exact condition: at
  most one of the presented cookies carries the digest and opens to the expiry of the attempt.
- *A conditional write replaces the fact that was read.* Not after a deletion and a new creation up to the same version:
  `DeletionGoesUnnoticed`. `ConditionalWriteReplacesWhatWasRead` is the exact condition: no deletion in between.
- *Revoking all sessions of a user leaves none.* The one statement selects its rows when it starts, and then waits for
  each. A session survives that is issued meanwhile, or that a rotation puts in the place of a selected one:
  `RevocationMissesNewSession`, `RevocationMissesRotatedSession`. `RevocationsMissExactly` is the exact condition, for every
  session and every run: it is alive at the commit and did not exist at the selection. So a revocation acts as if alone at
  its commit if and only if there is no such session (`RevocationIsLoneRunUnlessItMisses`). All other session
  transactions, and all those of the control plane that write, always do.
- *The rows shown are the end of the log without a gap.* Not if messages are filtered by acknowledgement, since then rows
  enter and leave in the middle; `FiltersAreExact` says that these are the only filters with which it can fail while no full
  load lands during a fetch. And not if one does, which happens when the page becomes visible while it loads:
  `OverlapLeavesGap`. `NoGapIsExact` is the exact condition for all runs under the other filters: every fetch that has
  landed since the last full load began at the sequence number that was shown when it landed, or landed onto no rows. A
  gap stays until the next full load lands (`GapsLast`).

## Model

| member | source | states |
|---|---|---|
| EscapeNormalizer.Confluence | scripts/compose-smoke-helpers.ts:43-62 | Two sequences of collapses that leave no escape end in the same text, whatever order they take. |
| EscapeNormalizer.UniqueNormalForm | scripts/compose-smoke-helpers.ts:43-62 | A text without escapes that is reached from s is the normal form of s, reached by (length difference) / 5 collapses. |
| EscapeNormalizer.ReductionLength | scripts/compose-smoke-helpers.ts:56-59 | Every collapse shortens the text by exactly five code units. |
| EscapeNormalizer.NormalFormIsReached | scripts/compose-smoke-helpers.ts:43-62 | The normal form is reached by collapses and holds no escape anywhere. |
| EscapeNormalizer.NormalFormIsIdempotent | scripts/compose-smoke-helpers.ts:43-62 | Normalising a normal form changes nothing. |
| EscapeNormalizer.NormalisingAPieceFirst | scripts/compose-smoke-helpers.ts:43-62 | Normalising any part of a text beforehand does not change the result. |
| EscapeNormalizer.EscapingIsUndone | scripts/compose-smoke-helpers.ts:43-62 | Escaping any selection of ASCII characters leads to the same normal form. |
| EscapeNormalizer.EscapesAreSpellings | scripts/compose-smoke-helpers.ts:46-59 | An escape starts at a position exactly if the six code units there are a backslash, a `u` of either case, two zeros and the two hexadecimal digits, of either case, of an ASCII character; collapsing it yields that character. |
| EscapeNormalizer.SpellingsAreCollapsed | scripts/compose-smoke-helpers.ts:46-59 | Wherever such six code units stand, the normal form is that of the text with the character in their place. |
| EscapeNormalizer.NormalFormSpellsNothing | scripts/compose-smoke-helpers.ts:43-62 | Nowhere in a normal form do six code units spell an ASCII character. |
| EscapeNormalizer.SecurityNormalizeAsciiEscapes | scripts/compose-smoke-helpers.ts:43-62 | The one-pass stack loop returns exactly the normal form; `SpellingsAreCollapsed` says what becomes of every escape, code unit by code unit. |
| TrustedProxies.Ipv4NumberIsPositional | src/config.ts:182-184 | The reduction of the octets is their positional value below 2^32. |
| TrustedProxies.Ipv4IntervalIsExact | src/config.ts:186-190 | The interval of an IPv4 entry holds exactly the addresses that share its prefix, for prefixes 0 to 32. |
| TrustedProxies.MatchPartsComparesPrefix | src/config.ts:200-202 | Comparing 16 bit parts from the left, as the address library does, compares the first bits of the 128 bit numbers. |
| TrustedProxies.CoverageIsExact | src/config.ts:192-205 | The coverage of any valid IPv4 or IPv6 entry, on both sides of the prefix 96, is exactly the set of IPv4 addresses whose (mapped) number shares the prefix; null when there is none. |
| TrustedProxies.CoveragesAreExact | src/config.ts:207-211 | An address is in some sorted interval if and only if some entry trusts it. |
| TrustedProxies.TrustsEveryIpv4Address | src/config.ts:207-219 | The sweep returns true if and only if every one of the 2^32 addresses is trusted by some entry, for entries in any order, with overlaps and duplicates. |
| ControlPlaneInvariant.StatementKeeps | src/control/project-service.ts:98-119 | After every statement a transaction knows of the committed rows what the rows it has locked protect, and locks only free rows. |
| ControlPlaneInvariant.OthersStillKnow | src/control/project-service.ts:98-119 | What a transaction knows stays true when another transaction commits. |
| ControlPlaneInvariant.CommitGuarantees | src/control/operator-service.ts:404-480 | A commit changes only rows that it has locked, and adds active projects only to an owner whose row it has locked. |
| ControlPlaneInvariant.StepKeepsConsistent | src/control/project-service.ts:174-308 | Every step of every transaction keeps all knowledge and the disjointness of the locks. |
| ProjectLimit.ProjectLimitHolds | src/control/project-service.ts:98-308 | Under every interleaving of creation, restoration, archiving, operator archiving, deletion and assignment, with commits and aborts, no set of active projects of an owner is larger than a non-zero limit if none was at the start. |
| Memberships.MembershipsAgree | src/control/membership-service.ts:173-361 | From an empty start, in every state of every interleaving: each owned project has its owner's membership and no other owner's, no invitation is redeemed twice or both redeemed and revoked, and each live project's viewers number its redemptions less its removals. |
| Memberships.RedeemIsAllOrNothing | src/control/membership-service.ts:238-304 | A redemption commits claim, membership and event at once, of an invitation that is neither redeemed nor revoked nor expired at the time that the request read, and for a user without membership in its existing project, or changes nothing. |
| Memberships.SettledInvitationsAreFinal | src/control/membership-service.ts:238-335 | A redeemed or revoked invitation never changes again in any run. |
| ControlPlaneAlone.AloneIsEffect | src/control/project-service.ts:174-308 | Each of the eleven transactions, its statements executed one after the other without a rival, has exactly its promised effect on all tables, and throws exactly when it promises an error. The promises have tests of their own; `ControlPlaneContract` writes them out, and that interleaved commits have them too is `ControlPlaneSerial.CommitIsLoneRun`. |
| ControlPlaneContract.CreationIsExact | src/control/project-service.ts:98-214 | A creation alone succeeds exactly if the user exists and either has a project under the key, when nothing changes, or has fewer active projects than the limit (or the limit is zero), when project, owner membership and event are added. |
| ControlPlaneContract.RestoringIsExact | src/control/project-service.ts:247-279 | A restoration alone succeeds exactly if the user owns the archived project and has fewer active projects than the limit, or the limit is zero. |
| ControlPlaneContract.AssignmentIsExact | src/control/operator-service.ts:404-480 | An assignment alone succeeds exactly if the user exists unblocked and is not a member, the project has no owner, the user has no project under its key, and, if it is active, fewer active projects than the limit. |
| ControlPlaneContract.RedemptionIsExact | src/control/membership-service.ts:238-304 | A redemption alone succeeds exactly if the invitation exists unredeemed, unrevoked and with its expiry still to come, and the user is neither owner nor member of its existing project; then claim, viewer and event are added. |
| ControlPlaneContract.RevocationIsExact | src/control/membership-service.ts:306-335 | A revocation alone succeeds exactly for the owner of the invitation's project while the invitation is unredeemed, unrevoked and unexpired. |
| ControlPlaneContract.InvitationLastsAWeek | src/control/membership-service.ts:173-304 | An invitation lets a non-member in until just before seven days after its creation, and not from then on. |
| ControlPlaneContract.InvitationLetsInOne | src/control/membership-service.ts:238-335 | After a redemption or a revocation nobody is let in by the invitation at any time. |
| ControlPlaneContract.WaitsExactlyForLocks | src/control/project-service.ts:98-308 | In every consistent state a statement that succeeds alone does exactly the same if no other transaction has an opposed lock on a row that it locks, and waits otherwise; one that throws alone throws, or waits first; alone none waits. |
| ControlPlaneContract.BeginAndEndAreExact | src/control/operator-service.ts:404-480 | Transactions begin at any time, an assignment only for a project without owner; they commit exactly at their end, and an error or an abort leaves nothing behind. |
| ControlPlaneSerial.StatementReads | src/control/operator-service.ts:404-480 | After every statement, what the transaction has read and acted on, but does not write, is true of the committed rows. |
| ControlPlaneSerial.OthersHaveStillRead | src/control/project-service.ts:98-119 | What a transaction has read stays true when a transaction with compatible locks commits. |
| ControlPlaneSerial.CommitIsLoneRun | src/control/project-service.ts:98-308 | In every interleaving, a commit that writes leaves the tables exactly as the same transaction leaves them that begins and ends alone at that moment. |
| ControlPlaneSerial.RunsAreSerial | src/control/membership-service.ts:173-361 | Every interleaved run from an empty start ends with the tables of a serial run: the committed transactions, each alone from beginning to end, in the order of their commits. |
| SessionInvariant.InvariantHolds | src/web-auth/session-service.ts:171-392 | Every reachable state keeps the bounds of all sessions, the revocation of the blocked users' sessions, and what each open transaction knows. |
| SessionInvariant.BlockedUsersHaveNoLiveSessions | src/control/operator-service.ts:303-333 | No committed state, under any interleaving, shows a live session of a blocked user. |
| SessionInvariant.BlockingIsFinal | src/control/operator-service.ts:303-358 | A session that exists while its user is blocked is revoked and never authenticated again, even after an unblocking. |
| SessionInvariant.RevokedIsNeverAuthenticated | src/web-auth/session-service.ts:224-286 | A revoked session stays as it is and is never authenticated again. |
| SessionInvariant.LifetimesAreBounded | src/web-auth/session-service.ts:171-214 | Every session's absolute expiry is thirty days after its authentication, and its idle expiry the earlier of that and seven days after it was last seen. |
| SessionInvariant.SuccessKeepsSessionActive | src/web-auth/session-service.ts:224-286 | After a success at t the session is active up to t + 7 days - 5 minutes, below its absolute expiry, for every request not older than its latest touch. |
| SessionInvariant.NewRequestsAreNotTooEarly | src/web-auth/session-service.ts:224-286 | For a request that begins now, within that time, the session is usable if and only if it is neither revoked nor blocked nor past its absolute expiry. |
| SessionExpiry.ExpiryIsFinal | src/web-auth/session-service.ts:152-286 | In every run, an expired session that no request in flight exposes is never active and never authenticated again. |
| SessionExpiry.ExpiryIsFinalUnlessExposed | src/web-auth/session-service.ts:152-286 | From any state that keeps the invariant, an expired session is authenticated in some run if and only if a request in flight read the clock while it was usable. |
| SessionExpiry.OlderRequestRevives | src/web-auth/session-service.ts:224-286 | Such a request makes the session active again if it touches the row. |
| SessionExpiry.ExpiredSessionCanReturn | src/web-auth/session-service.ts:228-276 | A run in which an expired session becomes usable again. |
| SessionExpiry.OverlappingRequestIsRejected | src/web-auth/session-service.ts:152-286 | Of two waiting requests the earlier is rejected when the later goes first and touches the row, though each alone would succeed. |
| SessionRevival.WaitingRequestIsAccepted | src/web-auth/session-service.ts:152-286 | In every run, a waiting request for which the session was usable is accepted when it gets the rows if and only if the session is not revoked, its user not blocked, and the row not touched later than the request's clock. |
| SessionRevival.RevivalIsExact | src/web-auth/session-service.ts:152-286 | From every orderly state, a session is usable at the clock of the last state of some run if and only if it is unrevoked and some chain of requests in flight, each renewing the row that those before it leave, reaches beyond the present. |
| SessionRevival.RevivalMayTakeTwoRequests | src/web-auth/session-service.ts:228-276 | A reachable state with an expired session that two waiting requests revive though neither does so alone. |
| SessionRevival.OneRequestIsEnough | src/web-auth/session-service.ts:228-276 | One waiting request suffices whose clock the session was usable at, outside the touch interval and within seven days of the present. |
| SessionRevival.OrderlyHolds | src/web-auth/session-service.ts:152-286 | Every reachable state is orderly: it keeps the invariant, and what has executed nothing holds no lock. |
| SessionsAlone.AloneIsEffect | src/web-auth/session-service.ts:171-392 | Each of the seven session transactions, its statements executed one after the other without a rival, has exactly its promised effect, and throws exactly when an error is promised; that interleaved commits have it too is `SessionsSerial.CommitIsLoneRun`. |
| SessionsAlone.WaitsExactlyForLocks | src/web-auth/session-service.ts:171-392 | In every reachable state a statement that goes on alone does exactly the same if no other transaction has locked a row that it locks, and waits otherwise; one that throws alone throws; alone none waits. |
| SessionsAlone.VisitsAreExact | src/web-auth/session-service.ts:369-392 | A revocation comes to a selected row exactly when no other transaction has locked it, and has rows to come to until it is done. |
| SessionsAlone.BeginAndEndAreExact | src/web-auth/session-service.ts:171-392 | Transactions begin at any time with the clock of the moment, commit exactly at their end, and leave nothing behind after an error or an abort. |
| SessionsSerial.CommitIsLoneRun | src/web-auth/session-service.ts:171-286 | Whatever happened since it began, the commit of an issue, authentication, rotation, blocking or unblocking leaves the tables exactly as a lone run at that moment. |
| SessionsSerial.RunsAreSerial | src/web-auth/session-service.ts:171-392 | Every interleaved run ends with the tables of a serial run in commit order, where a revocation revokes the rows that it has written. |
| SessionsSerial.RevocationsMissExactly | src/web-auth/session-service.ts:369-392 | A session that a revocation targets is alive after its commit if and only if it is alive at the commit and did not exist when the revocation's statement selected its rows, whatever happens while the statement waits for them. |
| SessionsSerial.RevocationIsLoneRunUnlessItMisses | src/web-auth/session-service.ts:369-392 | A revocation's commit equals a lone run at that moment if and only if all its live targets of that moment existed at the selection. |
| SessionsSerial.RevocationMissesRotatedSession | src/web-auth/session-service.ts:288-392 | A run in which the revocation of all sessions waits for a row that a rotation holds, and the rotated session survives though it exists before the statement ends. |
| SessionsSerial.RevocationMissesNewSession | src/web-auth/session-service.ts:381-392 | A run in which a session issued before the commit survives the revocation of all sessions, which alone at that moment would revoke it. |
| OAuthAttempts.AttemptsAreSingleUse | src/web-auth/oauth-service.ts:111-155 | In every run of starts, consumptions and cleanups in any interleaving, no attempt is returned by two consumptions. |
| OAuthAttempts.ConsumptionIsExact | src/web-auth/oauth-service.ts:111-155 | A consumption answers a presented cookie of an attempt issued before the request exactly if the attempt's expiry is later than the request's clock, it is unconsumed at the commit, and the cookie opens to that expiry; the answer is the expiry's. |
| OAuthAttempts.ConsumptionMarksExactly | src/web-auth/oauth-service.ts:111-155 | A consumption marks, with its clock, exactly the presented attempts that are unexpired and unconsumed at its commit, and leaves every other row alone. |
| OAuthAttempts.CleanupIsBounded | src/web-auth/oauth-service.ts:87-97 | Rows leave the table only at the commit of a start: exactly the selected versions that are still current, at most 128, all expired. |
| OAuthAttempts.CleanupSelectsTheOldest | src/web-auth/oauth-service.ts:87-97 | A cleanup selects at most 128 rows with an expiry not later than its clock, fewer only if those are all, and none that was passed over is older. |
| OAuthAttempts.CleanupCanSelect | src/web-auth/oauth-service.ts:87-97 | For every number of rows up to the expired ones there is a selection of so many of the oldest. |
| OAuthAttempts.RowsAreVisitedExactly | src/web-auth/oauth-service.ts:87-151 | A cleanup deletes a selected row and a consumption marks a presented one exactly when no other transaction has deleted or marked it. |
| OAuthAttempts.WaitsOnlyForLocks | src/web-auth/oauth-service.ts:77-155 | In every reachable state a start or a consumption can go on, if no other transaction has deleted or marked a row. |
| OAuthAttempts.LiveAttemptsArePresent | src/web-auth/oauth-service.ts:77-109 | An attempt whose lifetime has not run out is in the table in every reachable state, and is consumed if and only if a consumption marked it. |
| OAuthAttempts.StartIssuesAnAttempt | src/web-auth/oauth-service.ts:77-109 | A start adds one fresh attempt that is good for five minutes, and changes no other row that it leaves. |
| OAuthAttempts.AnswersAreExact | src/web-auth/oauth-service.ts:111-155 | In every reachable state a logged call has answered a presented cookie with an attempt if and only if the call consumed the attempt and the cookie opens to the expiry that the attempt was issued with. |
| OAuthAttempts.AnsweredOnceUnlessRepeated | src/web-auth/oauth-service.ts:115-151 | A consumed attempt is answered at most once in its call if and only if at most one of the presented cookies carries its digest and opens to its expiry. |
| OAuthAttempts.RepeatedCookieIsAnsweredTwice | src/web-auth/oauth-service.ts:115-151 | A run from an empty start in which one call, given the same cookie twice, answers it twice. |
| Mailbox.Service.RegisterAgent | src/agents/service.ts:112-210 | Registration has exactly the specified new tables and reply, for a new, a repeated and a conflicting registration; `MailboxContract` writes them out. |
| Mailbox.Service.SendMessage | src/messages/service.ts:35-138 | Sending has exactly the specified new tables and reply, in every error branch and for fresh and repeated keys; `MailboxContract` writes them out. |
| Mailbox.Service.SyncAgent | src/agents/service.ts:212-326 | A poll has exactly the specified new tables, journal and reply; fetching one row more decides whether more is left. |
| Mailbox.Service.SyncTransaction | src/agents/service.ts:220-312 | The poll's transaction, for any agent of the table, has exactly the specified new tables, journal and reply. |
| MailboxContract.NewSessionIsRegistered | src/agents/service.ts:112-210 | A session without an agent in the project gets one with the identifier, profile and time of the request and the token signed for it, and the journal says so. |
| MailboxContract.RepeatedRegistrationIsExact | src/agents/service.ts:112-210 | A session with an agent gets that agent, now seen, and its token if the profile is the same, and the conflict error otherwise. |
| MailboxContract.NewMessageIsStored | src/messages/service.ts:46-121 | A message with a good token, to another agent of the project and under a key that its sender has not used, is stored at the end of the table and returned; nothing else changes but the journal. |
| MailboxContract.UsedKeyIsExact | src/messages/service.ts:87-121 | Under a used key the stored message is returned if text and recipient are the same, and the conflict error otherwise; no row changes. |
| MailboxContract.BadTargetIsRefused | src/messages/service.ts:46-64 | A message to its sender or to no agent of the project is refused with the target error, whatever its key. |
| MailboxContract.BadTokenIsRefused | src/agents/service.ts:81-110 | A send or poll whose token was signed for no row of the project is refused with the authentication error. |
| MailboxContract.PollTables | src/agents/service.ts:220-243 | A poll sets the last-seen time of its agent, and acknowledges exactly the unread messages to it that it names. |
| MailboxContract.PollIsExact | src/agents/service.ts:220-312 | A poll returns the first of the unread messages that it does not name, up to its limit and in their order, says whether there are more, counts those that it acknowledged, and records itself and each of them. |
| InboxDraining.PollMayAuthenticateFirst | src/agents/service.ts:216-220 | When a poll has authenticated, its transaction does, after any further requests, exactly what the whole poll would do at that moment. |
| MailboxHistory.RetriedSendsAreInvisible | src/messages/service.ts:66-121 | Inserting a repeat of an accepted send at any later point of any run changes no row but the journal and no later reply, and returns the original message with its identifier and sequence. |
| MailboxHistory.ConflictingRepeatsAreRefused | src/messages/service.ts:87-104 | Another text or recipient under a used key is refused for ever after, with the conflict error for a valid target, and changes no row but the journal. |
| MailboxHistory.RegistrationIsIdempotent | src/agents/service.ts:112-210 | The token of a registration authenticates its agent in every later state; repeating it returns the same token and adds no agent; another profile is refused. |
| MailboxHistory.OnlyOwnTokensAuthenticate | src/agents/service.ts:81-110 | A token authenticates as an agent if and only if it was signed for the project, the agent and its registration. |
| MailboxHistory.OnlyOwnRequestsCountAsSeen | src/agents/service.ts:112-243 | A poll or a repeated registration marks exactly its own agent as seen, and no request changes anything else of an agent's row. |
| MailboxHistory.JournalAccountsForMessages | src/messages/service.ts:66-121 | In every reachable state the messages are, one to one and in order, the `message.sent` events that were not deduplicated. |
| MailboxHistory.AcknowledgementsAreConserved | src/agents/service.ts:220-312 | In every reachable state a message has one acknowledgement event if acknowledged and none otherwise, each by its recipient in its project, and the counts returned over the run sum to the acknowledged messages. |
| MailboxHistory.AcknowledgementIsTheRecipients | src/agents/service.ts:220-235 | A request acknowledges a message exactly if it is an authenticated poll by its recipient, in its project, that names the unacknowledged message; nothing else of any message changes. |
| MailboxHistory.MessagesAreImmutable | src/agents/service.ts:220-235 | Over any run a message changes at most once, by its acknowledgement. |
| InboxDraining.PollDelivers | src/agents/service.ts:220-312 | A poll that acknowledges the delivered front of the inbox delivers the front of the rest, counts what it acknowledged, and says exactly whether more is left. |
| InboxDraining.DrainDelivers | src/agents/service.ts:212-312 | Over any rounds of polls, with arbitrary requests of others between, what was delivered followed by what is undelivered is the first inbox followed by all arrivals. |
| InboxDraining.DeliveryIsAscending | src/agents/service.ts:246-264 | What a client receives is strictly ascending in sequence, hence each message once. |
| InboxDraining.QuietDrain | src/agents/service.ts:212-312 | Alone, a client empties n messages in the ceiling of n/limit delivering polls and one acknowledging poll, with exact flags. |
| InboxDraining.BatchesIsTheCeiling | src/agents/service.ts:246-264 | The number of batches used there is the ceiling of n/limit. |
| Blackboard.Service.SetFact | src/blackboard/service.ts:62-163 | A write has exactly the specified new table, journal and reply, unconditionally and on an expected version, with the conflict and the integer range error; `WritingIsExact` writes them out. |
| Blackboard.Service.DeleteFact | src/blackboard/service.ts:198-235 | A deletion removes the fact and records its version, or changes nothing where there is none. |
| Blackboard.Service.GetFacts | src/blackboard/service.ts:165-196 | A read returns exactly the facts of the project that are unexpired and match the given filters. |
| Blackboard.WritingIsExact | src/blackboard/service.ts:62-163 | A write fails without an agent, then on another version than expected, then at the greatest integer; otherwise it stores value, tags, expiry (a thousand milliseconds for each second to live), writer and time, counts the version up from 1, and keeps identifier and creation. |
| Blackboard.DeletingIsExact | src/blackboard/service.ts:198-235 | A deletion removes that fact alone and records its version and agent, or answers that there was none. |
| Blackboard.VersionsReplayFromJournal | src/blackboard/service.ts:80-235 | In every reachable state a fact's version is the number of writes since its creation, and the journal's versions at each place run 1, 2, 3, ... and restart only after a deletion. |
| Blackboard.ConditionalWriteDetectsOthers | src/blackboard/service.ts:116-145 | Without a deletion in between, a conditional write succeeds if and only if nothing was written since its version was read, and then replaces the very fact that was read. |
| Blackboard.ConditionalWritesExclude | src/blackboard/service.ts:116-145 | Between two deletions at most one conditional write on a version succeeds. |
| Blackboard.ConditionalWriteIsExact | src/blackboard/service.ts:116-145 | In every reachable state a conditional write succeeds if and only if exactly as many writes as its version were made since the last deletion. |
| Blackboard.ConditionalWriteReplacesWhatWasRead | src/blackboard/service.ts:116-235 | A conditional write that succeeds after any requests replaces the very fact that was read if and only if the fact was not deleted meanwhile. |
| Blackboard.DeletionGoesUnnoticed | src/blackboard/service.ts:198-235 | A run in which a conditional write overwrites another agent's new fact that its author never read. |
| Pulse.GetDailyPulse | src/pulse/service.ts:174-322 | The loops return the specified tree and counters of the active agents, and as unique files the strictly ascending list of all files of all reports. |
| Pulse.BuildTree | src/pulse/service.ts:235-300 | Finding or adding developer and connection for each active agent builds the specified tree and counts its blockers. |
| PulseTree.TreeHoldsActiveAgentsOnce | src/pulse/service.ts:228-300 | The tree holds every active agent exactly once, under its user and its connection, with its own reports, and holds nothing else. |
| PulseTree.ConnectionsAreDistinct | src/pulse/service.ts:277-299 | No connection identifier occurs twice in the whole tree, not even under two developers. |
| PulseTree.SessionsAreDistinctTokens | src/pulse/service.ts:302-308 | No developer and no connection is empty or repeated; the sessions counted are the distinct tokens of the active agents, all agents without one counting once. |
| PulseTree.BlockersAreWhatTheRadarCollects | src/pulse/service.ts:235-244 | The number of active blockers is the number of entries that the radar collects from the tree. |
| PulseTree.CollectBlockers | web/src/pulse/components/blocker-radar.tsx:41-58 | The radar's nested loops list the blocked agents of the tree in order. |
| PulseContract.RowsAreExact | src/pulse/service.ts:185-230 | The rows of the pulse are, in the order of the query, exactly the agents with a report of the day or last seen within it. |
| PulseContract.PlaceIsExact | src/pulse/service.ts:199-250 | Each agent is shown under its token if that exists, and under the token's user if that exists, online for five and idle for thirty minutes. |
| PulseContract.HistoryIsExact | src/pulse/service.ts:214-274 | An agent's history is exactly its reports of the day in the order of their creation, and its latest report the last of them. |
| PulseContract.TreeIsGrouped | src/pulse/service.ts:235-300 | Developers, their connections and their agents each come in the order of their first rows; every row is shown; a developer is called by its user, else by its first token, and a connection by its token. |
| PulseContract.RadarOfAgents | web/src/pulse/components/blocker-radar.tsx:41-58 | The radar lists, in order, the agents of a connection whose latest report is blocked and unresolved, each with its report, reason, files, names and presence. |
| PulseContract.RadarOfConnections | web/src/pulse/components/blocker-radar.tsx:41-58 | It goes through the connections of a developer in order. |
| PulseContract.RadarOfDevelopers | web/src/pulse/components/blocker-radar.tsx:41-58 | It goes through the developers in order. |
| PulseContract.OrderIsLexicographic | src/pulse/service.ts:302 | Files are sorted by the first code unit in which they differ, a proper beginning first. |
| Paging.DrainCreatedPages | src/admin/ui/browser.ts:177-194 | The loop returns the concatenated items, or stops for an error, an outdated context or missing progress, exactly as specified. |
| Paging.DrainIsExact | src/admin/ui/browser.ts:177-194 | After replies that lead on, each with items and a new cursor, the next reply decides: an error, an abandoned context, completion with all items in order, or missing progress. |
| Paging.OrderIsLexicographic | src/admin/query-service.ts:80-95 | The order of rows is total and antisymmetric; the time of creation decides before the identifier. |
| Paging.PageIsExact | src/control/read-service.ts:81-90 | A page holds exactly the rows beyond the cursor down to its next cursor, whatever the table. |
| Paging.PagesSkipNothing | src/control/read-service.ts:214-278 | A row present throughout comes, whatever rows come and go between the requests. |
| Paging.PagesDescend | src/admin/query-service.ts:80-95 | The items of all pages descend strictly by creation and identifier, so none comes twice, though the table changes between them. |
| Paging.DrainIsComplete | src/admin/ui/browser.ts:177-194 | Draining a changing table never raises the progress error; if it ends, it has every row present throughout exactly once in order, and none that never was. |
| Paging.DrainOfConstantTable | src/admin/ui/browser.ts:177-194 | Draining an unchanged table returns it whole after the ceiling of n/100 requests, one when it is empty. |
| Paging.PageCountIsTheCeiling | src/control/read-service.ts:81-90 | The number of requests used there is the ceiling of n/limit, one when there are no rows. |
| LivePaging.FetchIncremental | src/admin/ui/browser.ts:229-241 | The loop returns what was received with the newest sequence, or stops, exactly as specified. |
| LivePaging.FetchEndsExactly | src/admin/ui/browser.ts:229-241 | After replies that lead on, each with a row newer than all before and a promise of more, the next reply decides: an error, an abandoned context, completion with all rows and the newest of them, or missing progress. |
| LivePaging.FetchIsExact | src/control/read-service.ts:104-110 | A fetch from a growing log returns exactly the rows above the cursor that its last request found, ascending and once, with the newest of them, and never raises its progress error. |
| LivePaging.FetchOfConstantLogEnds | src/control/read-service.ts:435-488 | On a log that does not grow a fetch ends after the ceiling of n/limit requests. |
| LivePaging.PollsCommitTheLog | src/admin/ui/browser.ts:281-298 | Over polls of which any may fail, the committed batches concatenate to exactly what the log gained above the first cursor. |
| LivePaging.LoadAndPollsHaveNoGap | src/admin/ui/browser.ts:195-212 | After a full load and any polls, what was shown and committed is together a gap-free end of the log. |
| LivePaging.HistoryIsNewestFirst | src/control/read-service.ts:422-492 | A full load lists as many of the newest rows as its limit allows, newest first. |
| LivePaging.ReduceNewest | src/admin/ui/browser.ts:12-14 | The reduction is the newest sequence number. |
| LivePaging.NewestIsMaximum | src/admin/ui/browser.ts:12-14 | The newest sequence number is the largest of the rows and the current one. |
| Poller.Controller.BumpGeneration | src/admin/ui/browser.ts:62-70 | A bump moves to a new generation and, if it invalidates, to a new owner without active poll and without pending timer. |
| Poller.Controller.SchedulePoll | src/admin/ui/browser.ts:242-249 | Scheduling for the current owner leaves exactly one new timer, and for any other owner changes nothing. |
| Poller.Controller.StartPoll | src/admin/ui/browser.ts:264-286 | A poll starts only for the current owner and only if none of its polls is active, and waits for what its state needs. |
| Poller.Controller.ContinueListing | src/admin/ui/browser.ts:213-228 | The continuation with the projects chooses one and loads it under a new generation, unless it is outdated. |
| Poller.Controller.ContinueLoading | src/admin/ui/browser.ts:195-212 | The continuation of a load replaces all that is shown, unless it is outdated. |
| Poller.Controller.ContinueFetching | src/admin/ui/browser.ts:281-307 | The continuation of an incremental poll adds its batches, unless it is outdated, and in any case finishes the poll. |
| PollerContract.SelectionIsExact | src/admin/ui/browser.ts:328-340 | A choice of project, tab or filters retires the owner of the polls with its timer, outdates all requests, resets filters, rows and sequences as far as it concerns them, and starts one load for the new context. |
| PollerContract.VisibilityIsExact | src/admin/ui/browser.ts:345 | A change of visibility replaces the pending timer by one of the current owner, and changes nothing else. |
| PollerContract.TimerIsExact | src/admin/ui/browser.ts:242-286 | A timer starts a poll unless one is active: a fetch if the page is ready, a listing if it has no project, otherwise a load, for the context of the moment. |
| PollerContract.ListingIsExact | src/admin/ui/browser.ts:213-228 | A current listing loads the chosen project, or the first listed, under a new generation; any other settles without effect. |
| PollerContract.LoadIsExact | src/admin/ui/browser.ts:195-212 | A current load shows exactly what it brought, in its tab alone, up to the greatest sequence number of its rows; any other settles without effect. |
| PollerContract.FetchIsExact | src/admin/ui/browser.ts:281-298 | A current fetch puts its batches, newest first, before the rows shown, and takes over their newest sequence numbers; any other shows nothing. |
| PollerContract.EndIsExact | src/admin/ui/browser.ts:250-319 | At its end a task leaves, and the next poll is scheduled, in place of a pending one, exactly if its caller is still wanted. |
| PollerInvariant.AtMostOneTimerAndPoll | src/admin/ui/browser.ts:242-268 | In every reachable state at most one timer is pending, of the current owner, and at most one poll of each owner is in flight. |
| PollerInvariant.PollingNeverDies | src/admin/ui/browser.ts:242-319 | In every reachable state a timer is pending or a task is in flight that will schedule one. |
| PollerInvariant.ResponsibleTasksSchedule | src/admin/ui/browser.ts:250-319 | Such a task comes nearer to its end with every answer, stays responsible until then, and at its end leaves a pending timer. |
| PollerInvariant.TimersPoll | src/admin/ui/browser.ts:242-268 | A timer that fires leaves a poll of the current owner active and in flight. |
| PollerInvariant.PollAlwaysComes | src/admin/ui/browser.ts:242-319 | From every state that keeps the invariant a poll of the current owner gets in flight within four steps, though every request fails and the user does nothing. |
| PollerInvariant.OutdatedNeverLands | src/admin/ui/browser.ts:59-60 | A response requested under an older generation changes neither rows, summary and sequences nor the context. |
| PollerInvariant.OnlyCurrentResponsesLand | src/admin/ui/browser.ts:195-307 | What is shown changes only by the user's change of context or by a response requested under the very context in which it lands. |
| PollerInvariant.ShownBelongsToTheContext | src/admin/ui/browser.ts:195-298 | In every reachable state all that is shown as ready was requested for the current project, tab, filters and generation. |
| AdminViews.ViewsGrow | src/control/read-service.ts:280-440 | While events and messages come and messages are acknowledged, the rows behind the activity under any filters, and behind messages not filtered by acknowledgement, only grow at their end. |
| AdminViews.ActivityIsExact | src/control/read-service.ts:434-445 | The activity under filters is exactly the events of the agent, the type and the outcome, as far as these are chosen, in order. |
| AdminViews.MessagesAreExact | src/control/read-service.ts:280-303 | The messages under filters are exactly those from or to the agent, acknowledged or not, as far as these are chosen, in order. |
| LiveRows.RowsShownHaveNoGap | src/admin/ui/browser.ts:195-298 | In every run of the controller in which the server answers truthfully and no full load lands during a fetch, and unless messages are filtered by acknowledgement, the rows shown for a context are a gap-free end of its log, at least the newest rows that a full load lists, and the next fetch continues where they end. |
| LiveRows.NoGapIsExact | src/admin/ui/browser.ts:195-298 | In every such run, with or without overlap, the rows shown have no gap if and only if every fetch landed since the last full load began at the sequence number shown when it landed, or landed onto no rows. |
| LiveRows.GapsLast | src/admin/ui/browser.ts:195-298 | Rows with a gap keep it until the next full load lands. |
| LiveRows.LandingIsExact | src/admin/ui/browser.ts:229-298 | A fetch that lands on gap-free rows leaves them gap-free if and only if it began at the sequence number still shown, or no rows are shown. |
| LiveRuns.OverlapLeavesGap | src/admin/ui/browser.ts:195-346 | A truthful run from the start of the page, without any choice by the user, in which a load overlaps a fetch and a row is missing between two that are shown. |
| FilteredRuns.FilteredMessagesGoWrong | src/control/read-service.ts:295-296 | For all filters with a choice of acknowledgement, a truthful run without overlap after which a message is missing between two that are shown, or one is shown that the filter no longer lets through. |
| FilteredRuns.FiltersAreExact | src/admin/ui/browser.ts:82-97 | The rows of a tab under given filters are the end of its log in all truthful runs without overlap if and only if messages are not filtered by acknowledgement. |

## Left out

- The interleaved transactions are modelled on values, as machines that step through statements, not as objects that are updated in place; the mailbox, the blackboard and the controller are objects.
- A joined lookup of a session and its user, and the cascade of a project's deletion, wait for all their rows and then take them at once, so fewer interleavings exist than in the database; the deletion has locked the project before. All other statements, among them revocations and the cleanup of login attempts, lock one row at a time.
- ControlPlaneAlone.AloneIsEffect: states the effect of a run without rivals; interleaved commits have it by `ControlPlaneSerial.CommitIsLoneRun`.
- SessionsAlone.AloneIsEffect: states the effect of a run without rivals; interleaved commits have it by `SessionsSerial.CommitIsLoneRun`, revocations as far as `SessionsSerial.RevocationIsLoneRunUnlessItMisses` says.
- LiveRows.LandingIsExact: speaks of one landing; whole runs are the subject of `LiveRows.NoGapIsExact`.
- Deadlocks: they appear as aborts. What a statement waits for is stated exactly (`WaitsExactlyForLocks`), how long is not.
- Key-share locks that foreign keys take on user rows, and the deletion of users with its cascades.
- The operator's own identity, the check of recent authentication, request validation by schema, and the rotation of CSRF tokens.
- Cryptography, encodings and random values: a token, cookie or digest stands for what it opens to, and generated identifiers are new. Cursors are the keys that they carry.
- The parsing of addresses and CIDR texts; the address library's prefix match is modelled part by part, its parser is not part of this model.
- PostgreSQL's visibility of sequence numbers out of commit order: rows of messages and logs are listed in sequence order, with gaps. A deduplicated send uses up a sequence number; the numbers come with the requests here.
- Mailbox.Service.SyncAgent: a poll that fails to authenticate records its failure at once; agents are never deleted in this model, so the transaction always finds its caller. The order of the rows that an update returns is that of the table.
- ControlPlaneSerial.RunsAreSerial: a repeated creation, which finds its key taken, writes nothing and has no place in the serial run.
- SessionsSerial.RunsAreSerial: revocations are not serializable in commit order; what they miss is stated exactly.
- Rows that the reader of a page has scrolled away from, and which wait to be shown, count as shown. The choices of the page are not bound to what its selects offer; the runs that show a failure need no others. The fetches of a context use its filters.
- Presence, public profiles and the sorted order of capabilities beyond their multiplicities; byte counts and request identifiers in the journal.
- Blackboard.Service.GetFacts: the order by namespace and key is not modelled, as it depends on the collation.
- Reports of progress and the resolution of blockers; test statuses, notes, avatars and time formats of the pulse. The developer and connection objects of the pulse are values that are replaced, not shared references.
- Paging.PagesSkipNothing: rows are compared by time and identifier as numbers, the text form of the time column is not modelled.
- Failure counts, back-off delays, visibility, status texts and all of the page's nodes in the controller; the acknowledgement marks copied into shown messages. The contexts behind what is shown are recorded for the specification only.
- Poller.Controller.ContinueFetching: the several requests of a load or a poll answer together; a part that is dropped as outdated on the way implies, by `GenerationsNeverGoBack`, that the whole is outdated at the end.
- HTTP routing, the MCP and command-line surfaces, GitHub, rate limits, logging and the observer role: plumbing or one-branch facts.
