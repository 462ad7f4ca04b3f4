# Verified model of the authentication server

A Dafny model of the state-changing core of the authentication server, with proofs of what that core guarantees over
whole runs. `dafny verify dfyconfig.toml` checks everything. Nothing of the server itself was executed.

The server keeps its state in database tables. Each table is modelled as a finite map, each operation twice: as a
function from tables to tables, and, where the program works by changing rows and variables step by step, as a method of
a class whose fields are the tables, proved equal to the function. Queries return rows in an arbitrary order. The
theorems are about the functions and hold for every run of the events named. A method whose contract says just that it
computes its function has no row below; the rows are the lemmas about that function.

- **Refresh tokens** (`RefreshTokens`, `RefreshGrant`, `Transactions`, `Sessions`): sign-in, rotation, replay and reuse
  detection, the single-session rule, the retry loop, nested transactions. `GrantTheorems` says exactly which
  answer each request gets and what it leaves; `TokenRuns`, `TokenTheorems`, `TokenChains`, `DeadSessions` and
  `SingleSession` hold the theorems over runs.
- **Locking** (`LockProtocol`, `LockProgress`): concurrent refresh transactions as a state machine of skip-locked steps;
  every interleaving is serial in commit order, and a transaction nobody disturbs runs through.
- **Clean-up** (`Cleanup`, `CleanupTheorems`, `CleanupTimes`): the periodic statements on sessions and tokens, whom they
  spare, when they take a row, and their round-robin.
- **One-time tokens** (`OneTimeTokens`, `Verification`, `OneTimeRuns`, `OneTimeTheorems`, `Expiry`,
  `Confirmations`, `EmailChange`): secrets kept both in a user column and in a row, links and typed codes, until when each
  is accepted, who is confirmed by what, the two-step change of an address.
- **Account linking** (`Linking`, `LinkingStore`, `LinkingOutcomes`, `LinkingRuns`, `LinkingTheorems`, `LinkingLasts`):
  the linking decision, the steps that apply it, sign-ups, invitations and unlinking.
- **Factors** (`Mfa`, `MfaStore`, `MfaRuns`, `MfaLaws`, `MfaLimits`): enrolling, verifying and unenrolling, who may take
  a factor away or add one, assurance levels and claims, limits on the number of factors.
- **Rate limiter** (`RateLimit`): the interval limiter over sequences of calls.

Clock readings, the outcome of sending a message or checking a code, the rows a limited statement picks and the order of
rows are parameters. Tokens and secrets are serial numbers, so a new one differs from all earlier ones; a time stands for
a whole transaction.

Where a promise turned out not to hold, a lemma gives the input and another the exact condition:

- any positive reuse interval lets a session have two unrevoked tokens (`AnyReuseWindowForksTheChain`, against
  `RotationKeepsOneChain`);
- a factor verification revives a session whose tokens are all revoked (`VerificationRevivesADeadSession`, `DeadStep`);
- the deletion of old anonymous users takes their sessions along, acceptable or not (`AnonymousPurgeTakesALivingSession`,
  `AnonymousPurgeExactlySafe`);
- two factor verifications on a never-refreshed session let a clean-up statement delete a session still acceptable
  (`TwoFactorVerificationsBreakThePromise`, `UnrefreshedPurgeExactlySafe`);
- the round-robin of clean-up statements has a gap when the 32-bit counter wraps (`RoundRobin`);
- a provider that vouches for a secondary address but not for the primary one leads the program to create a second
  account with an address in use (`UnverifiedPrimaryDuplicatesAnAddress`, `SignInKeepsAddressesUniqueExactly`); the
  database's partial unique index on addresses then refuses the row. The model has no such index: uniqueness within an
  audience is proved of the program's own checks, and a step the index would refuse is simply no step;
- unenrolling a phone or WebAuthn factor leaves its claim, which is spelled differently from the factor's kind, so the
  stored level and the computed one part (`OtherKindsLoseAgreement`, `UnenrolAgreesExactly`);
- the cap on verified factors can be exceeded by one less than the number of enrolable kinds (`BoundIsReached`,
  `FactorsStayBounded`).

## Model

| member | source | states |
|---|---|---|
| `Common.WholeSeconds` | internal/models/cleanup.go:70-85 | a duration cut to whole seconds, towards zero, loses less than a second |
| `Transactions.NestedTransactionsVanish` | internal/storage/dial.go:135-161 | a program inside an open transaction behaves as the same program with all its inner transactions stripped, for every nesting |
| `Transactions.OutermostErrorDecides` | internal/storage/dial.go:116-161 | whatever is nested, the store keeps all writes when the error that reaches the outermost transaction is absent or a commit-with-error, and none otherwise; the caller hears the error either way |
| `Sessions.LastRefreshedAt` | internal/models/sessions.go:99-117 | a non-zero refresh time wins over everything; without one the later of creation time and token time is taken |
| `Sessions.DetermineTag` | internal/models/sessions.go:163-184 | the loop returns the session's own tag if it is non-empty and configured, otherwise the first configured tag, and the empty one when none is configured |
| `RefreshTokens.TokenFamily` | internal/models/refresh_token.go:83-105 | the round-by-round evaluation of the recursive query ends with exactly the stored descendants of the token, for any parent links (cycles included), in at most as many productive rounds as there are tokens |
| `RefreshTokens.TokenStore.RevokeTokenFamily` | internal/models/refresh_token.go:83-105 | the session-wide update when the token has a session, the recursive family otherwise |
| `RefreshTokens.TokenStore.FindTokenBySessionID` | internal/models/refresh_token.go:107-117 | the oldest token of the session, none only if it has none |
| `RefreshTokens.TokenStore.FindCurrentlyActiveRefreshToken` | internal/models/sessions.go:353-365 | the unrevoked token with the highest serial, none only if there is none |
| `RefreshGrant.MostRecentSession` | internal/api/token_refresh.go:119-171 | the loop over the user's sessions, in any row order, finds the session superseded exactly when some other valid session of the same tag was refreshed later |
| `RefreshGrant.BodyOnStore` | internal/api/token_refresh.go:101-255 | statement by statement the transaction body computes the value-level body: rotation, replay, reuse detection, rejection |
| `RefreshGrant.TransactionOnStore` | internal/api/token_refresh.go:101-255 | a plain error restores the tables, a commit-with-error keeps them |
| `RefreshGrant.RefreshTokenGrant` | internal/api/token_refresh.go:37-284 | the retry loop makes at most 500 attempts, retries exactly while an attempt is past the checks and blocked by a lock, answers as one unlocked attempt would, and gives up only when the five seconds are over with nothing changed |
| `RefreshGrant.GrantHasShape` | internal/api/token_refresh.go:48-255 | a grant changes the tables in one of four ways only: deletes an orphan token, touches the session, swaps and touches, or revokes the session of an already revoked token |
| `TokenRuns.EveryRunIsSound` | internal/models/refresh_token.go:63-167 | over every run of sign-ins, refreshes, factor verifications, family revocations, clean-ups and logouts each token belongs to a stored session of the same user and its stored parent is an older, revoked token of that session and user |
| `TokenTheorems.RunsBuildAForest` | internal/models/refresh_token.go:63-167 | in every reachable state the parent relation is an acyclic forest within sessions and every unrevoked token is a leaf |
| `TokenTheorems.DescendantsAreYounger` | internal/models/refresh_token.go:63-167 | along any chain of parents serials grow, the session stays the same and the ancestor is revoked |
| `TokenTheorems.RevocationIsFinal` | internal/models/refresh_token.go:63-105 | over every run a revoked token is never unrevoked, no token changes its session, user or parent, and no serial of a deleted token returns |
| `TokenTheorems.FamilyRevocationReachesTheFamily` | internal/models/refresh_token.go:83-105 | revoking a family revokes every token the recursive query reaches, leaves no active token in the session, keeps every row and touches no other session |
| `TokenTheorems.SessionlessFamilyRevocation` | internal/models/refresh_token.go:83-105 | for a token without a session exactly its stored descendants become revoked, over any parent links, and nothing else changes |
| `GrantTheorems.ReasonsExactly` | internal/models/sessions.go:143-161 | a session is invalid for the first of these rules it breaks: end date, time box, inactivity since the last refresh (or, without one, since creation and the token's last change), and too low a level once the allowed time since creation is over; each comparison is written out, and it is valid if and only if it breaks none |
| `GrantTheorems.AnsweredExactly` | internal/api/token_refresh.go:48-255 | every request gets exactly one answer, given by rules on the stored rows in order: unknown token, ban, missing session, the four reasons a session can have ended, a rival session seen later, a token used too late, a failure afterwards, a grant |
| `GrantTheorems.GrantedExactly` | internal/api/token_refresh.go:48-255 | a refresh is granted if and only if its token is stored with a session that breaks no rule, its user is not banned, no rival outdoes it, nothing fails afterwards, and the token is unrevoked, the parent of the session's youngest unrevoked one, or within the reuse interval |
| `GrantTheorems.TagsKeepApart` | internal/api/token_refresh.go:119-171 | sessions with different configured tags never turn each other away: a request is refused because of a newer login with such a session stored if and only if it is without |
| `GrantTheorems.GrantLeaves` | internal/api/token_refresh.go:178-255 | a grant either replays the child of a revoked token and changes no token, or revokes the presented one and issues a new child; the session counts as refreshed at that moment and nothing else changes |
| `GrantTheorems.RefusalLeaves` | internal/api/token_refresh.go:48-255 | a refusal deletes an orphaned token, or revokes the unrevoked tokens of the session when a reuse is detected under rotation, and otherwise changes nothing |
| `GrantTheorems.SignInOpensASession` | internal/models/refresh_token.go:119-167 | a sign-in hands out the only token of a session nobody had, at level one and with the end date, tag and factor given, which a refresh accepts at once if and only if its end date is not past; all other rows are untouched |
| `GrantTheorems.SwapHandsOver` | internal/models/refresh_token.go:63-80 | after a swap the new child is the token the session finds active in place of the old one; no other token and no session row has changed |
| `GrantTheorems.VerificationRaisesTheSession` | internal/api/token.go:443-493 | a factor verification swaps the session's oldest token, which makes the new one active, raises that session to level two with the factor, and touches no other row |
| `GrantTheorems.ChecksPassedExactly` | internal/api/token_refresh.go:48-99 | a request gets past the checks made before any lock if and only if its token is stored with a session that breaks none of the rules and its user is not banned |
| `TokenChains.RunsStayLinked` | internal/api/token_refresh.go:178-225 | with no reuse window and a strictly increasing clock each token's parent is the token issued just before it in its session, over every run of sign-ins and refreshes |
| `TokenChains.RotationKeepsOneChain` | internal/api/token_refresh.go:178-225 | hence the tokens of each session form one chain, oldest first, with at most one unrevoked token, the last |
| `TokenChains.ReplayIsIdempotent` | internal/api/token_refresh.go:178-194 | presenting the parent of the active token any number of times returns that same token or an unrelated refusal, and adds or changes no token |
| `TokenChains.AnyReuseWindowForksTheChain` | internal/api/token_refresh.go:195-212 | for every positive reuse interval, with or without the single-session rule and under any session limits longer than three nanoseconds, a run of four requests leaves two unrevoked tokens in one session, so the interval being zero is necessary |
| `DeadSessions.AnswersAndTables` | internal/api/token_refresh.go:195-255 | what each answer says about the tables: reuse under rotation commits a fully revoked session although the answer is an error; every other refusal leaves the tables alone; a granted token is an unrevoked child of the presented one |
| `DeadSessions.DeadSessionsStayDead` | internal/api/token_refresh.go:178-225 | over every run without such a verification a dead session never has an active token again and none of its tokens is honoured |
| `DeadSessions.ReuseDetectionKills` | internal/api/token_refresh.go:195-212 | a detected reuse under rotation makes the session dead as soon as the reuse window has passed |
| `DeadSessions.DeadStep` | internal/api/token_refresh.go:178-225 | an event keeps a session dead (all tokens revoked and past the reuse window) if and only if it is not a factor verification of that session |
| `DeadSessions.VerificationRevivesADeadSession` | internal/api/token.go:443-493 | for every reuse interval a run of sign-in, two refreshes and a detected reuse leaves a dead session that a factor verification gives a token the next refresh honours |
| `SingleSession.RejectionNamesAWinner` | internal/api/token_refresh.go:119-171 | a refusal by the single-session rule means that a valid session of the same user and tag was seen strictly later |
| `SingleSession.LosersKeepLosing` | internal/api/token_refresh.go:119-171 | over every run under a strictly increasing clock the losing session is refused and its row stays put for as long as the winner stays stored and valid |
| `SingleSession.RefusedByNewerStaysRefused` | internal/api/token_refresh.go:119-171 | from the first sign-in on, every refusal by the rule comes with a session to blame whose staying valid keeps the refused session refused |
| `LockProtocol.BodyIsLocal` | internal/api/token_refresh.go:101-255 | past its locks a refresh transaction reads and writes only the rows of its own session |
| `LockProtocol.CommitIsAtomic` | internal/api/token_refresh.go:101-255 | publishing a transaction's writes equals running the whole transaction on the tables at the moment of the commit |
| `LockProtocol.EveryInterleavingIsSerial` | internal/models/user.go:637-689 | every interleaving of skip-locked steps on token, session and (under the single-session rule) user rows, of writes that wait for row locks and of aborts leaves the tables of the committed transactions run serially in commit order; no two transactions are past the locks of one session, and the token each read right after locking it is unchanged |
| `LockProtocol.Serializable` | internal/models/sessions.go:204-277 | the same from any tables without dangling references and no transaction under way |
| `LockProtocol.WaitingEnds` | internal/api/token_refresh.go:195-212 | a transaction that waits for a row to write waits only for one that has just taken its first lock and gives up at its next step, so waiting never deadlocks |
| `LockProtocol.FailedAttemptsLeaveNoTrace` | internal/api/token_refresh.go:101-118 | an attempt that fails a lock, whose body fails or that is aborted changes no row and is not part of the serial order |
| `LockProgress.UndisturbedTransactionsFinish` | internal/api/token_refresh.go:101-255 | from every world that an interleaving leads to, a transaction that nobody disturbs gets its three locks, commits if and only if it is granted or reports a reused token, and leaves the rows of the whole transaction run at once |
| `LockProgress.CommittedExactlyByTheLastStep` | internal/api/token_refresh.go:101-255 | a transaction ends as committed, and enters the serial order, by its own last step with its rows written and no plain error, and by no other move; a move changes no other transaction |
| `CleanupTheorems.TwoFactorVerificationsBreakThePromise` | internal/models/cleanup.go:76-85 | with two factor verifications on a never-refreshed session the promise fails: a session still acceptable is deleted |
| `CleanupTheorems.RoundRobin` | internal/models/cleanup.go:111-122 | n consecutive calls run every statement if and only if the 32-bit counter does not wrap among them or n divides 2^32 |
| `CleanupTheorems.SelectedSessionsAreUnacceptable` | internal/models/cleanup.go:50-85 | no session that a session statement selects would be accepted, now or at any later time, with any of its tokens, as long as never-refreshed sessions have one unrevoked token at most and it is the last one updated |
| `CleanupTheorems.CleanupSparesTheLiving` | internal/models/cleanup.go:50-85 | under that condition a statement keeps a session that some request could still refresh, with its unrevoked tokens, if and only if it is not the deletion of anonymous users with the owner among those picked |
| `CleanupTheorems.CleanupIsSafeAfterAnyRun` | internal/models/cleanup.go:50-85 | the same after every run in which no session is verified by a factor twice before its first refresh, where the condition is proved rather than assumed |
| `CleanupTheorems.AnonymousPurgeExactlySafe` | internal/models/cleanup.go:63-68 | whichever users are picked, deleting anonymous users spares all sessions that could be refreshed if and only if no anonymous user older than thirty days owns one |
| `CleanupTheorems.AnonymousPurgeTakesALivingSession` | internal/models/cleanup.go:63-68 | without session limits a month-old anonymous sign-in has a session that would be accepted forever and is deleted, with its token, by cascade |
| `CleanupTheorems.UnrefreshedPurgeExactlySafe` | internal/models/cleanup.go:76-85 | a session selected by the statement for never-refreshed ones may be deleted harmlessly if and only if its end date or its time box has passed or every one of its tokens has been idle for longer than the timeout |
| `CleanupTimes.NothingIsTakenEarly` | internal/models/cleanup.go:50-85 | whatever statement runs on whatever rows: a session that goes is overdue for a day less one second (three days if only its end date has passed) or of an anonymous user older than thirty days, a token that goes alone was revoked for a day, a token that changes becomes revoked in a session a day past its end, all else stays, and at most a hundred rows (ten sessions past their end) are picked |
| `CleanupTimes.PickedRowsAreTaken` | internal/models/cleanup.go:50-85 | the rows picked are taken: tokens, sessions with all their tokens, or all sessions and tokens of the users |
| `CleanupTimes.EverythingDueIsListed` | internal/models/cleanup.go:50-85 | a session overdue for a day, a token revoked for a day and an unrevoked token of a session a day past its end are each selected by a statement on the job's list |
| `CleanupTimes.AbandonedUsersAreListed` | internal/models/cleanup.go:63-68 | anonymous users are selected exactly after thirty days, by a statement that is on the list exactly when anonymous users are enabled |
| `OneTimeTokens.Accounts.SendMessage` | internal/api/mail.go:307-487 | the message goes out if and only if it can be delivered and the minimum distance from the last one is over, for text messages strictly; then a fresh secret is in the column and in the row with the sent-at time set, otherwise nothing changes |
| `OneTimeTokens.Accounts.SendEmailChangeMessage` | internal/api/mail.go:489-548 | goes out under the same condition; then one or two fresh secrets, the requested address and a zero confirmation status are stored together, otherwise nothing changes |
| `Verification.FindOneTimeToken` | internal/models/one_time_token.go:151-177 | a row with the hash among the types asked for, none only if there is none |
| `Verification.EmailChangeVerify` | internal/api/verify.go:520-607 | under secure change the first confirmation spends its own secret only and the second changes the address; otherwise one suffices; the email identity is created or updated with the new address |
| `Verification.VerifyTokenHash` | internal/api/verify.go:609-662 | which user and type a link leads to: never a banned user, never later than the allowed time after the sent-at time of the type; a refusal means no row, no user, a ban or that time being over, and the only other outcome is the read of a missing sent-at time |
| `OneTimeRuns.EveryRunIsMirrored` | internal/models/one_time_token.go:119-149 | in every reachable state there is at most one row per user and type, its hash equals the user's column, the matching sent-at time is set, and no secret occurs under two columns or users |
| `OneTimeTheorems.LinksAreWellDefined` | internal/api/verify.go:609-662 | after any run a link never reads a missing sent-at time, the type `email` resolves to the type of the row found, and at most one row can be found |
| `OneTimeTheorems.ResolvedType` | internal/api/verify.go:618-650 | the type a found row is treated as, and the sent-at time read for it, are those of its kind |
| `OneTimeTheorems.LinkSpends` | internal/api/verify.go:119-226 | accepting a link, even as the first of two, spends its secret in column and row |
| `OneTimeTheorems.CodeSpends` | internal/api/verify.go:665-755 | accepting a typed code spends its secret in column and row |
| `OneTimeTheorems.SpentForever` | internal/api/verify.go:609-755 | over every run a spent secret is refused whichever way it is presented |
| `OneTimeTheorems.TokensAreSingleUse` | internal/api/verify.go:312-399 | over every run a token accepted once, by link or by code, is never accepted again by either |
| `Expiry.EveryRunIsDated` | internal/api/mail.go:307-548 | over every run each stored secret is the one of its kind that was last sent to the user, and the sent-at time read for it is the time of that event |
| `Expiry.LinksAcceptedExactlyInTime` | internal/api/verify.go:119-399 | in every reachable state a link is accepted, or half accepted as the first of two confirmations, if and only if a row holds its secret for its purpose, that secret was sent at most the allowed seconds ago, the user is not banned and nothing fails afterwards; for whom and as what is stated, and a rejected link changes nothing |
| `Expiry.CodesAcceptedExactlyInTime` | internal/api/verify.go:665-755 | in every reachable state a typed code is accepted if and only if it is a secret of the user for that purpose, sent at most the allowed seconds ago (text messages have their own limit), the user is not banned and nothing fails afterwards; a rejected code changes nothing |
| `Expiry.FreshLinksWork` | internal/api/mail.go:307-548 | at the end of any run, the link of a secret just sent, of any type that fits and followed in time by a user not banned, is accepted or half accepted for that user |
| `Expiry.FreshCodesWork` | internal/api/mail.go:307-548 | and so is its code, typed in time |
| `Expiry.MessagesAreRecorded` | internal/api/mail.go:344-548 | a message records the number or address to move to or that the user is invited, starts an email change over, keeps every secret of another kind and touches no other user |
| `Confirmations.NewSecretReplacesTheOld` | internal/models/one_time_token.go:131-149 | a new secret is the only row of its user and type, and every row of another user or type is as before |
| `Confirmations.ConfirmationEndsAllLinks` | internal/models/user.go:429-585 | after any of the user's confirmations, recoveries, changes or a new password no link sent before leads to the user, and the links of others lead where they led |
| `Confirmations.DroppedKindsHaveNoCodes` | internal/models/user.go:429-475 | a confirmation that drops the secret of a kind leaves no typed code of that kind that fits, and every other kind exactly the codes it had |
| `Confirmations.NewPasswordEndsAllCodes` | internal/models/user.go:354-384 | after a new password no typed code of the user is accepted either, and the codes of others are as good as before |
| `Confirmations.ConfirmedExactlyByAcceptance` | internal/api/verify.go:312-460 | in every reachable state an address or a number is confirmed after an event if and only if it was before or a verification of that user vouching for it was accepted, and it moves if and only if a change was accepted, to the one requested |
| `Confirmations.IdentityFollowsTheAddress` | internal/api/verify.go:565-590 | over every run a user has an email identity exactly when the user has an address, and it is under that address |
| `Confirmations.AcceptanceSettles` | internal/api/verify.go:401-607 | an accepted verification takes all link rows of its user and no other, ends exactly the codes of its purpose (and of what it confirms or replaces with it), gives an invited user a password and leaves no change of its kind pending |
| `Confirmations.PasswordsAndChecksSettle` | internal/models/user.go:354-441 | a new password ends all links and codes of the user, a passed identity check all links and its own code; other users keep theirs |
| `Confirmations.SignUpOpensAnAccount` | internal/api/signup.go:375-400 | a sign-up adds an account with nothing confirmed, no secret and no change pending, and touches no other |
| `EmailChange.EveryRunIsTracked` | internal/api/mail.go:489-548 | the stored confirmation status and rows agree with a history of which secrets of the latest request were accepted, over every run |
| `EmailChange.BothConfirmationsChangeTheAddress` | internal/api/verify.go:520-607 | conversely a secure request followed by its two links in time, in either order, is half done after the first and changes the address to the requested one with the second |
| `EmailChange.EmailChangesAfterBothConfirm` | internal/api/verify.go:520-607 | over runs of sign-ups, messages, links, typed codes other than for an email change, and password changes: with secure change on, autoconfirm off and a current address, an event that changes the address is a link with one of the two secrets of the latest request after the other of the same request was accepted, and the address becomes the requested one |
| `EmailChange.OnlyEmailChangesMoveTheAddress` | internal/models/user.go:483-530 | among those events, under any configuration, only an accepted email-change link that needs no second confirmation moves an address, to the requested one |
| `Linking.Domain` | internal/models/linking.go:16-27 | the linking domain is an SSO provider exactly when the provider is |
| `LinkingStore.Store.IsDuplicatedEmail` | internal/models/user.go:721-766 | another user of the audience with a non-SSO identity under the address, else a non-SSO user with it; none only if neither exists |
| `LinkingStore.Store.FindProvidersByUser` | internal/models/identity.go:101-120 | exactly the providers of the user's identities, each once |
| `LinkingStore.Store.CreateNewIdentity` | internal/api/external.go:713-724 | fails exactly when provider and subject are already stored |
| `LinkingStore.Store.RemoveUnconfirmedIdentities` | internal/models/user.go:814-845 | the loop leaves the user one identity, the matching list of providers and no foreign password |
| `LinkingStore.Store.CreateAccountFromExternalIdentity` | internal/api/external.go:288-430 | statement by statement the external sign-in, with refusals rolled back and the needs-verification answer committed |
| `LinkingStore.Store.ProcessInvite` | internal/api/external.go:432-498 | an invitation is accepted exactly when it is outstanding, one of the provider's addresses is the invited one and the identity is new |
| `LinkingStore.Store.SignUpUser` | internal/api/signup.go:110-270 | a sign-up by address or phone: whom it comes upon, what it stores, and that a failed message rolls it back |
| `LinkingStore.Store.UpdateUserEmailFromIdentities` | internal/models/user.go:275-314 | the address is kept if an identity has it, else becomes one nobody in the audience holds; refused exactly when there is none |
| `LinkingStore.Store.DeleteIdentity` | internal/api/identity.go:16-91 | unlinking succeeds exactly for one of several identities of the user, unless no address is free, and is rolled back then |
| `LinkingStore.Store.DetermineAccountLinking` | internal/models/linking.go:53-203 | the loops over addresses and over rows in any order settle on the user of a known identity; for a new one on the only user with a claim (an identity of the domain under a vouched address or, if nobody has one and the provider is no SSO provider, a vouched address of its own), on nobody if several have a claim, and on a new account if none has |
| `LinkingOutcomes.DecidedByClaims` | internal/models/linking.go:53-203 | the decision is the one that the claims on a new identity give, for the last primary address, which is dropped when nobody vouches for anything and it is in use |
| `LinkingOutcomes.SignInLeadsExactly` | internal/api/external.go:288-391 | a sign-in ends at a user if and only if it belongs to that account, the user is not banned, a new account is allowed if one is needed and no mail that is needed fails; a refused one changes nothing, an accepted one adds no user but the one it ends at, and verification is still needed exactly for an unconfirmed user whose primary address nobody vouches for |
| `LinkingOutcomes.SeveralClaimsAreRefused` | internal/models/linking.go:109-203 | two users with a claim on a new identity: the sign-in is refused and nothing changes |
| `LinkingOutcomes.SignInLeaves` | internal/api/external.go:288-391 | the identity is stored under the user with the address given, no other user and no other stored identity is altered, a new account has the address, audience and kind of the sign-in, an existing one keeps its own, and who is confirmed or has a mail under way is stated exactly |
| `LinkingOutcomes.InvitationAcceptedExactly` | internal/api/external.go:432-498 | an invitation is accepted if and only if it is pending, the invited address is among the provider's and the identity is new; the user is then confirmed and left with that identity alone, otherwise nothing changes |
| `LinkingOutcomes.InvitationLeaves` | internal/api/invite.go:20-100 | an invitation changes nothing if its mail fails or the address is a confirmed user's; otherwise the user with the address, or else a new one, has a mail under way |
| `LinkingOutcomes.SignUpComesUpon` | internal/api/signup.go:110-270 | a sign-up comes upon somebody if and only if the number or address is in use in the audience |
| `LinkingOutcomes.SignUpLeaves` | internal/api/signup.go:110-270 | a sign-up changes nothing if sign-ups are off, the user it comes upon is confirmed, or its message fails; otherwise that user or a new one has the identity, and is confirmed or has a message under way as configured |
| `LinkingOutcomes.UnlinkedExactly` | internal/api/identity.go:16-91 | an identity is unlinked if and only if it is the user's, the user has another and (except for a phone's) its own address or a free one remains on an identity; otherwise nothing changes |
| `LinkingRuns.DecisionStaysInDomain` | internal/models/linking.go:93-203 | the user a decision settles on is of the provider's kind and all its identities are of the provider's domain |
| `LinkingRuns.EveryUserHasOneDomain` | internal/api/external.go:288-430 | over every run of sign-ups, invitations, external and SAML sign-ins, confirmations and unlinks all identities of a user lie in one linking domain, and a user with identities is an SSO user exactly when that domain is an SSO provider |
| `LinkingTheorems.DecisionIgnoresOrder` | internal/models/linking.go:53-66 | lists of the same addresses with one primary, in any order and with repetitions, lead to the same decision and user |
| `LinkingTheorems.VerifiedPrimaryIsSafe` | internal/models/linking.go:53-66 | a sign-in whose primary address is verified, or any sign-in under autoconfirm, is among those covered by `AddressesStayUnique` |
| `LinkingTheorems.CreatedAddressIsFree` | internal/models/linking.go:93-166 | the address of a new account is in use exactly when the primary one is, nobody vouched for it and another one was vouched for |
| `LinkingTheorems.UnverifiedPrimaryDuplicatesAnAddress` | internal/models/linking.go:109-166 | a concrete sign-in by which two non-SSO users of an audience share an address as far as the program's own checks go |
| `LinkingTheorems.UnlinkKeepsAddressesUnique` | internal/models/user.go:275-314 | the address unlinking leaves the user with is nobody else's |
| `LinkingTheorems.AddressesStayUnique` | internal/models/user.go:721-766 | over every run of sign-ups, invitations, unlinks and external sign-ins whose primary address is verified, absent, or accompanied by no verified one, no two non-SSO users of an audience share an address |
| `LinkingTheorems.SignInKeepsAddressesUniqueExactly` | internal/api/external.go:319-352 | an external sign-in keeps addresses unique within audiences if and only if it is not one that creates an account for an unvouched primary address in use: another address vouched for, a new identity, no account found by the vouched addresses, and neither sign-up, ban nor mail in the way |
| `LinkingLasts.SignInOwns` | internal/api/external.go:354-391 | after a committed sign-in the identity belongs to the user named and no other user's identities changed; a user not confirmed before (other than by web3) is left with that identity alone, its provider as the only one listed, and no password of another provider |
| `LinkingLasts.SignInLasts` | internal/models/linking.go:68-91 | after a committed create or link every later decision for that provider and subject is that the account exists, with the same user, over every run in which the identity stays |
| `LinkingLasts.UnlinkLeavesAnIdentity` | internal/api/identity.go:36-91 | unlinking takes that identity and no other, never the last; unless it was a phone's, the user's address is that of a remaining identity |
| `LinkingLasts.ProviderListsStayAccurate` | internal/models/user.go:259-271 | over every run the providers stored with a user are exactly those of its identities |
| `MfaStore.Store.ValidateFactors` | internal/api/mfa.go:133-168 | the counting loop allows an enrolment exactly when the name is new, both caps are not reached and a user with verified factors is at level two |
| `MfaStore.Store.EnrolFactor` | internal/api/mfa.go:170-337 | an enrolment of each kind, with what it clears away even when it is refused |
| `MfaStore.Store.UpdateMfaSessionAndClaims` | internal/api/token.go:443-493 | the session gets the claim, the level of its claims and the factor |
| `MfaStore.Store.DowngradeSessions` | internal/models/factor.go:332-343 | the sessions verified with the factor lose the claim spelled like its kind, the level and the factor |
| `MfaStore.Store.VerifyFactor` | internal/api/mfa.go:675-721 | the verification transaction, the same for the three kinds: fails exactly for a session without refresh tokens, and otherwise swaps the oldest one, raises the session, deletes the sessions below level two from both tables and the pending factors of the kind |
| `MfaStore.CalculateAALAndAMR` | internal/models/sessions.go:309-337 | the level that the claims stand for; the list is a permutation of the claims as entries, most recent first |
| `MfaStore.Store.UnenrolFactor` | internal/api/mfa.go:1003-1044 | a pending factor always goes, a verified one exactly from a session at level two |
| `MfaRuns.AfterVerificationAllSessionsAreAal2` | internal/api/mfa.go:817-852 | after a verification at the end of any run every session the user still has is at level two |
| `MfaRuns.TotpLevelsAgree` | internal/models/sessions.go:279-337 | for a user who only ever enrols TOTP factors the stored level of each session equals the one computed from its claims, over every run of sign-ins, enrolments, verifications, unenrolments, refreshes, expiries and logouts |
| `MfaRuns.UnenrolAgreesExactly` | internal/models/factor.go:332-343 | unenrolling keeps that agreement if and only if no session verified with the factor has a level-two claim other than one spelled like the factor's kind |
| `MfaRuns.OtherKindsLoseAgreement` | internal/models/amr.go:24-26 | for phone and WebAuthn factors agreement is lost by every verification followed by unenrolling |
| `MfaRuns.SignInStartsAtLevelOne` | internal/api/token.go:395-439 | a sign-in opens a session of level one that agrees with its only claim and touches no other session |
| `MfaRuns.ExpiryTakesStaleFactorsOnly` | internal/models/factor.go:375-387 | expiring takes no verified or challenged factor, takes none more than a second early, leaves none that is due, and is idempotent |
| `MfaRuns.VerifyKeepsOnlyLevelTwo` | internal/api/mfa.go:687-719 | a verification keeps its own session, at level two and tied to the factor, and of the user's others exactly those whose level is not one, as they were; no other user's session is touched |
| `MfaLaws.UnenrolledExactly` | internal/api/mfa.go:1003-1044 | a factor is unenrolled if and only if it is pending or the session is at level two, otherwise nothing changes; only that factor goes, and only the owner's sessions verified with it fall to level one |
| `MfaLaws.VerifiedFactorsStay` | internal/api/mfa.go:1003-1044 | an event takes a verified factor away if and only if it is its unenrolment from a session of its owner at level two; otherwise the factor is unchanged |
| `MfaLaws.VerifiedFactorsGoByUnenrolmentOnly` | internal/api/mfa.go:1003-1044 | over every run a verified factor is gone at the end if and only if it was unenrolled on the way from a session of its owner that was then at level two |
| `MfaLaws.EnrolledExactly` | internal/api/mfa.go:133-337 | an enrolment adds a pending factor if and only if the kind is enabled, the number is not a verified factor's, no factor that stays has the name, neither cap is reached and a user with a verified factor asks from level two; it sweeps pending factors that are stale or share the number, and changes nothing else |
| `MfaLaws.FactorsComeByEnrolment` | internal/api/mfa.go:133-168 | in every sound state a new factor is pending and comes from an enrolment by its owner, at level two if there is a verified one already, and a factor becomes verified only by its verification |
| `MfaLaws.VerifySettlesFactors` | internal/models/factor.go:274-280 | after a verification the factor is verified, the user's pending ones of the kind are gone and all others are as they were |
| `MfaLaws.LevelExactly` | internal/models/sessions.go:309-337 | claims stand for level two if and only if one of them is TOTP, phone or WebAuthn as a second factor, and for level one otherwise |
| `MfaLimits.VerifyTrades` | internal/models/factor.go:274-280 | verifying a pending factor adds it to the verified ones and takes its kind from the kinds with a pending factor |
| `MfaLimits.FactorsStayBounded` | internal/api/mfa.go:133-168 | over every run a user has at most MaxEnrolledFactors factors and at most MaxVerifiedFactors - 1 + k verified ones with k enrolable kinds, which is the cap itself for one kind |
| `MfaLimits.NoFactorsAreBounded` | internal/api/mfa.go:152-158 | a user without factors satisfies the bound whenever the cap is positive, so runs may start there |
| `MfaLimits.BoundIsReached` | internal/api/mfa.go:152-162 | the bound is reached, for every set of kinds and every positive cap, from any state with one verified factor less than the cap |
| `RateLimit.StateAfter` | internal/ratelimit/interval.go:52-63 | after any non-decreasing calls the reset time is on the grid, at most one interval before the last call, and the count is the number of calls allowed in that window |
| `RateLimit.AllowedExactlyBelowTheLimit` | internal/ratelimit/interval.go:52-63 | a call is allowed exactly when fewer than the limit were allowed in the grid window it falls into |
| `RateLimit.SpanHoldsTwiceTheLimit` | internal/ratelimit/interval.go:52-63 | any half-open span of one interval holds at most twice the limit of allowed calls, for every limit |
| `RateLimit.IntervalLimiter.AllowAt` | internal/ratelimit/interval.go:45-63 | as long as the clock does not go back the call is allowed exactly when fewer than the limit were allowed in its window, the reset time is the start of that window, and the interval ending with the call holds at most twice the limit |

## Left out

- HTTP routing, JSON, redirects, logging, audit log, metrics and configuration loading have no bearing on the tables.
- Mail, SMS, hooks, provider clients, captcha and password-breach look-ups are foreign calls; a send is a success or a failure.
- Passwords, TOTP, WebAuthn, JWT and SAML checks are opaque; the result of a check is an input or a precondition of the event.
- Administrator endpoints other than invitations, manual linking, account deletion and anonymous users write the same columns directly and are outside the runs.
- Typed-code confirmation of an email change, test codes and Twilio Verify are not modelled.
- The `sql.ErrTxDone` case of a transaction is a race inside the driver and is not modelled.
- The burst limiter wraps a library that is not part of this model.
- Bans are a set given with each request; the ban endpoint is not modelled.
- The partial unique index on addresses and the unique constraint on phone numbers of factors are not modelled; the program's own checks are.
- Case folding of addresses covers the letters A to Z.
- The `relates_to` column of one-time tokens, user metadata and the `provider` field beside the list of providers are not modelled.
- The several clock readings inside one transaction are one instant.
- LockProtocol.EveryInterleavingIsSerial: covers refresh transactions only, not their interleaving with sign-ins or clean-up.
- The clean-up statements on tables other than users, sessions and refresh tokens run as steps without effect on these; of the users only age and anonymity are modelled, given with each run of the statement. Deletion of stale factors is an event of its own.
- A password change does not log sessions out in the one-time-token group; `TokenRuns` has logouts as events.
- RateLimit.IntervalLimiter.AllowAt: does not model the mutex, and requires a positive interval because the division needs one.
