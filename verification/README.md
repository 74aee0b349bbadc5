# Verified model of the authorization server's protocols

This Dafny project models the parts of the server whose behaviour depends on
order, time or bit arithmetic, and proves what they keep:

| modules | component |
|---|---|
| `TokenTables`, `TokenRuns`, `TokenWorld`, `TokenInvariants`, `TokenTheorems`, `TokenAnswers`, `TokenCodes`, `TokenRows`, `TokenReplays`, `TokenSessions`, `TokenRenewals`, `TokenRaces`, `TokenAtomic`, `TokenFirstParty`, `TokenUpkeep`, `TokenOutcomes`, `TokenHandlers` | the OAuth token tables, every handler on them as a program of single SQL statements, and what all interleavings of any number of handlers keep |
| `PushedRequests`, `DeviceCodes`, `DeviceRuns` | pushed authorization requests and the device grant |
| `BackchannelLogout`, `EndSession`, `SessionRaces` | a browser's sessions, the logout that ends them, and the delivery queue it feeds |
| `SigningKeys`, `KeyRotation`, `KeyRotationLimits`, `KeyCounts`, `KeyCaches`, `KeySchedule` | signing keys: the service, all runs of any number of replicas over one key table, the exact limits of the protocol, and the rotation job over the years |
| `AuditLog`, `AuditChain` | the audit hash chain: append, verify, export, retention |
| `Crc32`, `Png`, `PngReader` | table-driven CRC-32 and the PNG encoder, against a bitwise CRC and a PNG reader |
| `CidrBits`, `Ipv4Text`, `Ipv6Text`, `Ipv6Values`, `Cidr` | CIDR matching from the entry's text to the masked comparison |
| `TimedMap`, `MemoryCache`, `RateLimit`, `AlertLimiter` | the TTL cache, the fixed-window limiter on it, the sliding-window alert limit |
| `Captcha`, `CaptchaRuns`, `CaptchaRaces`, `CaptchaGuesses` | the captcha challenge and pass protocol |
| `Baseline`, `BaselineRaces` | the incremental behaviour baseline, its nightly recompute, and overlapping logins |
| `Options`, `FreshIds`, `JsBits`, `JsText` | unused ids, JavaScript's bit operators, number texts, `split`, `join` and JSON string literals |

Where the code updates something in place, a class has the same fields and
methods with the same branches; each method is tied by its `ensures` to a
function of the old state, and the theorems are about that function and about
runs of it.

`dafny verify dfyconfig.toml` checks the project.

## How the model reads the code

- A row's id stands for its random token, code, sid or UUID; ids are fresh.
  Times are natural numbers of milliseconds. Integers are unbounded except
  where the code uses JavaScript's 32-bit operators (`JsBits`).
- A SQL statement is atomic. Two granularities are used. In `TokenWorld`,
  `KeyRotation`, `DeviceRuns`, `CaptchaRaces`, `SessionRaces` and `BaselineRaces`
  a run is any sequence of statements of any number of handlers or replicas. In `TokenAtomic`, `EndSession`,
  `BackchannelLogout` and `CaptchaRuns` a handler runs to its end at once;
  `TokenAtomic` starts in any world that satisfies the invariant, and
  `TokenInvariants.AfterInv` shows that every reachable world does, whatever
  other handlers are half-way through.
- What a handler learns outside the modelled tables is an input: the clock,
  whether the user is active, whether PKCE and DPoP checks pass, the risk score,
  the relying party's answer to a logout POST, the puzzle's verdict. Deflate is
  a function some inflate undoes; a JSON round trip of a stored value is the
  identity.
- SHA-256 and the ISO timestamp are functions without collisions
  (`AuditChain.CollisionFree`), the payload text is spelled out. The number
  `bigserial` assigns is separate from the number the hash predicts: appends
  that roll back consume numbers (`burnt`).
- One clock for all replicas. `Params.latencyMs` bounds the time between a
  clock reading or query and the statement or cache write that uses it.
  Rotations are serialised, as the scheduler's lock does
  (server/jobs/scheduler.ts:44-62).

## What the code does not do

These are theorems about the code as it stands:

- **Reuse detection races with a rotation.** A reuse answered between another
  request's claim and its insert may leave the family alive:
  `TokenRaces.ReuseRacesWithRotation` is such a run. Exactly: when the answer's
  last revoking statement has run (the session's refresh tokens, or the family
  where there is no session) no token of the family is live, and none ever is
  again if and only if no rotation of it was in flight at that statement
  (`TokenAnswers.ReuseAnswerIff`). The same holds for the revocation endpoint
  (`TokenAnswers.RevokeAnswerIff`).
- **The first-party refresh takes tokens out of their family.** It accepts any
  unrevoked refresh token of an active user, whatever its client or expiry
  (`TokenFirstParty.FirstPartyIssuesIff`), and hands out one without family or
  session, which a later reuse answer does not reach
  (`TokenFirstParty.RenewalSurvivesReuse`, `TokenFirstParty.SurvivesReuseIff`).
  It does not claim the token: a token is renewed no more, in any continuation,
  if and only if it is revoked or gone and no first-party refresh has it in hand
  (`TokenRenewals.RenewedNoMoreIff`). So two of them can both succeed on one
  token: `TokenRaces.FirstPartyRefreshesTwice` is such a run.
- **A replayed code misses rotated tokens.** Rotation drops the link to the
  code (server/oauth/grants/refresh-token.ts:83-91), so an uninterrupted replay
  response leaves alive whatever no longer carries the code
  (`TokenAtomic.ReplayKillsFamilyIff`, `TokenAtomic.RotatedSurvivesReplay`).
  Under concurrency: the family is dead for good if and only if no rotation of it
  was in flight and every live member carried the code
  (`TokenReplays.ReplayKillsFamilyForGoodIff`). Even the tokens that carry the
  code stay dead if and only if nobody has yet to mint for it, and a replay
  answered between claim and mint comes too early (`TokenReplays.ReplayAnswerIff`).
  The comment above `revokeTokensFromAuthCode` promises everything the code
  minted.
- **A code outlives the logout.** A code issued before the logout can be
  redeemed after it; its tokens then live under an ended session, and no later
  logout reaches them: `EndSession.CodeOutlivesLogout`,
  `EndSession.TokensSurviveIff`. Exactly: a session never has a live token again,
  as long as no new code is issued in it, if and only if it has none, no handler
  is on its way to insert one, and no code of it can still be redeemed
  (`TokenSessions.SessionDeadIff`, and at the statement that kills a session
  `TokenSessions.KilledSessionDeadIff`).
- **A rolled-back audit append looks like tampering**
  (`AuditChain.RollbackReported`), and target, IP address and user agent are not
  protected by the chain (`AuditChain.UnhashedFieldsUnprotected`).
- **Between rotations there need not be one active and one next key.** A
  rotation abandoned between promoting and retiring leaves two active keys and
  no next one (`KeyCounts.AbandonedRotation`), and a boot inside a rotation
  mints a second next key (`KeyCounts.BootInsideRotation`).
  `KeyCounts.KeysBetweenRotations` counts both kinds after every run,
  `KeyCounts.OneActiveOneNextIff` says when there is exactly one of each.
- **Short IPv6 texts are accepted**: without "::", any one to eight groups, and
  even the empty text, pass validation (`Ipv6Values.ShortTextsAccepted`,
  `Ipv6Values.EmptyTextAccepted`).
- **The incremental baseline drifts from the recompute** as soon as a value
  returns after the cap has pushed it out (`Baseline.StaysEqualIff`,
  `Baseline.TwentyOneDiffer`): the two agree after every login if and only if none
  does (`Baseline.FoldAfterRecomputeIff`, `Baseline.IncrementalIsBatchIff`).
  Further returns may cancel the difference again: `Baseline.TwiceRoundEqual`.
- **Racing polls of a device code lose updates**: `DeviceRuns.PollLost`,
  `DeviceRuns.SlowDownLost`. The stored poll count and interval are right if and
  only if no poll, or slow_down, wrote after another one had written since its
  read (`DeviceRuns.RecordsExactIff`), and too low otherwise
  (`DeviceRuns.RacingPollsUndercount`).
- **Overlapping captcha verifications win several passes**:
  `CaptchaRaces.TwoPasses`. A challenge yields no further pass, whatever happens
  next, if and only if it is open no more and no verification of it is in flight
  (`CaptchaRaces.NoMorePassesIff`).
- **Overlapping captcha verifications admit any number of wrong guesses**, not
  just two and the burning one: `CaptchaGuesses.AnyNumberOfWrongGuesses`. Those
  told stay within two, or any other bound, if and only if nobody can read two
  attempts any more and those told and in flight are within it
  (`CaptchaGuesses.WrongGuessesBoundIff`); none is told any more if and only if
  the challenge is not open with two attempts and no verification is about to
  tell one (`CaptchaGuesses.NoMoreWrongGuessesIff`). The stored attempts count the
  wrong guesses told if and only if none was written after another one had been
  told since its read (`CaptchaGuesses.AttemptsExactIff`).
- **Two authorizations may open two sessions** for one browser and client
  (`EndSession.TwoCreators`, `EndSession.CreateKeepsOneLiveIff`), and enough of
  them any number (`SessionRaces.AnyNumberOfSessions`). The calls under way and any
  logouts keep the live sessions within n if and only if the live ones and the
  inserts to come are, and so are all the calls that have yet to insert
  (`SessionRaces.LiveSessionsBoundIff`).
- **Overlapping logins lose baseline updates** (`BaselineRaces.LoginLost`). The row
  holds all the logins written if and only if none was written after another one
  had been written since its read (`BaselineRaces.AllLoginsCountIff`).

## Model

| member | source | states |
|---|---|---|
| TokenTheorems.FamilyAtMostOne | server/oauth/grants/refresh-token.ts:65-91 | In every interleaving of refresh, revocation, code, device, logout, first-party and cleanup handlers, a refresh family has at most one unrevoked token or rotation in flight, counted together |
| TokenTheorems.RotatedOnce | server/oauth/grants/refresh-token.ts:68-76 | No two executions of the claim, in any interleaving, both rotate the same refresh token |
| TokenTheorems.RedeemedOnce | server/oauth/grants/authorization-code.ts:48-60 | No two executions of the claim, in any interleaving, both redeem the same authorization code |
| TokenOutcomes.IssuedComesWithToken | server/oauth/grants/refresh-token.ts:65-132 | In every run a handler answers that tokens are issued only together with a statement that inserts a live one |
| TokenOutcomes.LostClaimIsDenied | server/oauth/grants/refresh-token.ts:68-76 | A refresh whose token has been revoked or deleted since its lookup is denied and changes nothing |
| TokenOutcomes.LostRedemptionIsReplay | server/oauth/grants/authorization-code.ts:62-73 | A presentation of a code redeemed in the meantime goes on as its replay |
| TokenOutcomes.IssuedCodeRedeems | server/oauth/grants/authorization-code.ts:48-105 | A code issued at any moment of any run can be redeemed in time with the values it was issued with, and the same presentation afterwards is denied |
| TokenCodes.OneTokenPairPerCode | server/oauth/grants/authorization-code.ts:104-105 | Whatever access token carries a code at one moment of a run and whatever carries it at another, deletions in between included, is the same token; likewise for refresh tokens |
| TokenCodes.SettledStays | server/oauth/grants/authorization-code.ts:48-105 | Once a code is redeemed and no handler has yet to mint its token, no later statement of any handler adds one, brings one to life, or comes to owe one |
| TokenReplays.ReplayAnswerIff | server/oauth/grants/authorization-code.ts:25-34 | At the statement of a replay answer that revokes the access tokens, or the refresh tokens, of the code: afterwards no such token is live, and in no continuation is one again if and only if no handler had yet to mint for the code |
| TokenReplays.ReplayKillsFamilyForGoodIff | server/oauth/grants/authorization-code.ts:62-72 | At the last statement of a replay answer: a family has no live token then or in any continuation if and only if no rotation of it was in flight and every live member carried the code |
| TokenTheorems.FamilyAgrees | server/oauth/grants/refresh-token.ts:78-91 | In every reachable state all members of a family share user, client, tenant, scope and OIDC session |
| TokenTheorems.DeadForever | server/oauth/grants/refresh-token.ts:41-56 | A family without an unrevoked token and without a rotation in flight has neither after any continuation of the run |
| TokenAnswers.ReuseAnswerIff | server/oauth/grants/refresh-token.ts:41-56 | A run that detected a reuse, at its last revoking statement: afterwards the family has no live token and the answer is a denial, and in no continuation has it one again if and only if no rotation of it was in flight |
| TokenAnswers.RevokeAnswerIff | server/oauth/revoke.ts:32-49 | The same for the revocation of a refresh token, in the session branch and in the family branch |
| TokenAnswers.RevokedForGoodIff | server/utils/token-blacklist.ts:79-82 | The same for every statement that revokes all of a family, the session kill of a risk jump and of a logout included |
| TokenSessions.SessionDeadIff | server/oauth/issue.ts:69-99 | At any moment of any run, and for continuations no earlier that issue no new code in it: a session never has a live token again if and only if it has none, no handler is on its way to insert one, and no unused, unexpired code of it is left |
| TokenSessions.KilledSessionDeadIff | server/utils/token-blacklist.ts:70-88 | At the last statement of a session kill: no refresh token of the session is live, and it stays without live tokens for good if and only if no access token has come in since the first one, no handler is on its way to insert a token, and no code of it is left to redeem |
| TokenRows.StepRows | server/utils/token-blacklist.ts:13-88 | Every statement of every handler keeps each token row it does not delete, but for revoking it, and adds no row but the one its handler has decided on, under a fresh id |
| TokenTheorems.ReuseKillsUnlessInFlight | server/oauth/grants/refresh-token.ts:46-51 | The first statement of the reuse answer alone leaves no unrevoked member, and leaves neither token nor rotation of the family if and only if no rotation was in flight |
| TokenRaces.ReuseRacesWithRotation | server/oauth/grants/refresh-token.ts:41-91 | A concrete run in which a reuse is detected, answered and denied, and the family still ends with a live token |
| TokenInvariants.AfterInv | server/oauth/grants/refresh-token.ts:25-132 | Every reachable world satisfies the invariant: one holder per family, homogeneous families, used codes stay used, minted rows belong to the code's one redeemer |
| TokenInvariants.ClaimKeepsInv | server/oauth/grants/refresh-token.ts:68-72 | The atomic claim trades the family's live token for a rotation in flight and keeps the invariant |
| TokenInvariants.SuccessorKeepsInv | server/oauth/issue.ts:69-99 | Inserting the successor trades the rotation in flight for a live token and keeps the invariant |
| TokenInvariants.CodeClaimKeepsInv | server/oauth/grants/authorization-code.ts:50-60 | Claiming a code records its one redeemer, before which nothing carries the code, and keeps the invariant |
| TokenInvariants.DyingStep | server/utils/token-blacklist.ts:70-88 | Every revoking, terminating or deleting statement only lets rows die: none appears, none changes otherwise, none is unrevoked |
| TokenRuns.StepProgresses | server/oauth/grants/refresh-token.ts:25-132 | Every statement of every handler brings it strictly closer to its answer, so handlers terminate |
| TokenAtomic.ReuseKillsFamilyAndSession | server/oauth/grants/refresh-token.ts:41-56 | Presenting a rotated token is denied and revokes exactly the tokens of its family and session and the access tokens under the session: nothing of them is left alive, every other row of every table is unchanged |
| TokenAtomic.RefreshIssuesIff | server/oauth/grants/refresh-token.ts:29-122 | The grant issues if and only if the token is this client's and tenant's, unrevoked, unexpired, its user active, and the enforced risk has not jumped by 40 |
| TokenAtomic.RefreshRotates | server/oauth/grants/refresh-token.ts:68-132 | A granted refresh revokes the presented token, leaves exactly one live token in the family (same user, client, tenant, session and scope, no code, for 7 or 30 days), adds one such access token for 15 minutes, records the new risk score unless the engine is off, and changes no other row |
| TokenAtomic.JumpKillsSuccessor | server/oauth/grants/refresh-token.ts:115-122 | A risk jump denies, terminates the session with the new score, and leaves no live token under it or in the family, the successor just minted included |
| TokenAtomic.RevokeKillsFamily | server/oauth/revoke.ts:32-49 | Revoking any member through the session branch or the family branch revokes exactly the tokens of its family and session and the access tokens under the session; every other row of every table is unchanged |
| TokenAtomic.RevokeAccessOnly | server/oauth/revoke.ts:30-31 | Revoking an access token of the calling client revokes that row and nothing else |
| TokenAtomic.ForeignRevokeIsSilent | server/oauth/revoke.ts:25-28 | An unknown token, or one of another client or tenant, is acknowledged and nothing changes |
| TokenAtomic.RedemptionMints | server/oauth/grants/authorization-code.ts:50-105 | A redemption uses up the code and adds exactly one access token for 15 minutes and one refresh token for 7 days in a new family, both for the code's user, client, tenant, scope and session and both carrying the code |
| TokenAtomic.RedemptionIssuesIff | server/oauth/grants/authorization-code.ts:48-105 | The grant issues tokens if and only if the code is stored for this client, tenant and redirect URI, is unused and unexpired, its user is active, and the proofs it asks for are in order |
| TokenAtomic.MismatchIsRefused | server/oauth/grants/authorization-code.ts:62-73 | An unknown code, another tenant's, or an unused one presented by another client or with another redirect URI is refused and leaves every table as it was |
| TokenAtomic.FailedRedemptionUsesCode | server/oauth/grants/authorization-code.ts:75-92 | A matching code that is late, whose user is not active, or whose proofs fail is refused and used up, and nothing else changes |
| TokenAtomic.ReplayKillsMinted | server/oauth/grants/authorization-code.ts:62-72 | Replaying a used code, by whichever client, is denied and revokes exactly the tokens carrying the code |
| TokenAtomic.ReplayKillsFamilyIff | server/oauth/grants/authorization-code.ts:25-34 | Of an uninterrupted replay answer in any reachable world: no token stored at its end is a live member of the family if and only if every member live before it carried the code |
| TokenAtomic.RotatedSurvivesReplay | server/oauth/grants/refresh-token.ts:83-91 | After one refresh, a replay of the code leaves the successor as the family's live token |
| TokenHandlers.TokenDatabase.RefreshTokenGrant | server/oauth/grants/refresh-token.ts:25-132 | The handler's branches and updates, in order, give the tables and answer of the statement program run to its end |
| TokenHandlers.TokenDatabase.FinishRefresh | server/oauth/grants/refresh-token.ts:93-132 | The second half: session read, risk jump or score update, access token, as the statement program |
| TokenHandlers.TokenDatabase.AuthorizationCodeGrant | server/oauth/grants/authorization-code.ts:40-105 | The handler gives the tables and answer of the statement program run to its end |
| TokenHandlers.TokenDatabase.MintTokens | server/oauth/grants/device-code.ts:60-62 | Access then refresh token for a redeemed code, as the statement program |
| TokenHandlers.TokenDatabase.HandleRevoke | server/oauth/revoke.ts:15-51 | The revocation endpoint gives the tables and answer of the statement program run to its end |
| TokenHandlers.TokenDatabase.RevokeTokensBySession | server/utils/token-blacklist.ts:70-88 | Revokes exactly the access and refresh rows under the session; every other row of every table is unchanged |
| TokenHandlers.TokenDatabase.RevokeTokensFromAuthCode | server/oauth/grants/authorization-code.ts:25-34 | Revokes exactly the access and refresh rows carrying the code; every other row of every table is unchanged |
| TokenUpkeep.ReuseStaysDetected | server/oauth/grants/refresh-token.ts:41-56 | Once a refresh token is revoked, its reuse is detected in every continuation of every run, denied, and its family and session killed, as long as no cleanup reaches past its expiry |
| TokenUpkeep.RememberedUntilExpiry | server/utils/cleanup.ts:69-69 | No statement of any handler touches or deletes a revoked refresh token before a cleanup reaches past its expiry |
| TokenUpkeep.CleanupDeletes | server/utils/cleanup.ts:68-70 | The cleanup deletes exactly the expired access tokens and codes, and the refresh tokens both expired and revoked; the rest it does not touch |
| TokenUpkeep.UserTokensDie | server/routes/admin/users.ts:156-157 | Ending a user's tokens revokes exactly that user's access and refresh tokens |
| TokenFirstParty.FirstPartyIssuesIff | server/routes/auth/session.ts:83-91 | The first-party refresh issues if and only if the token is unrevoked and its user active, whatever its client, tenant or expiry |
| TokenFirstParty.SurvivesReuseIff | server/oauth/grants/refresh-token.ts:41-56 | A reuse answer leaves a token alive if and only if it was alive and shares neither family nor session with the reused one |
| TokenFirstParty.RenewalSurvivesReuse | server/routes/auth/session.ts:127-141 | A token renewed at the first-party refresh and then reused at the token endpoint: family and session are dead, the renewal is alive |
| TokenRaces.FirstPartyRefreshesTwice | server/routes/auth/session.ts:131-141 | A run in which two first-party refreshes of one token both end with a live successor |
| TokenRenewals.RenewedNoMoreIff | server/routes/auth/session.ts:83-141 | At any moment of any run: no continuation renews the token by a first-party refresh once more if and only if it is revoked or gone and no first-party refresh has it in hand |
| TokenHandlers.TokenDatabase.IssueRefreshToken | server/oauth/issue.ts:69-99 | The inserted row is the given one in its family, or in a fresh family if it has none |
| TokenHandlers.TokenDatabase.IssueAccessToken | server/oauth/issue.ts:14-40 | The inserted row is the given one under a fresh id |
| PushedRequests.ResolvedOnce | server/oauth/par.ts:50-73 | Once a request_uri has been matched by a resolve, in time or too late, no later resolve or peek ever gets a payload |
| PushedRequests.StillThere | server/oauth/par.ts:80-100 | Until then, however often it is peeked or resolved by others, it answers its client with its payload exactly up to 90 s after the push |
| PushedRequests.AnsweredIff | server/oauth/par.ts:50-100 | After any operations in order of time, a resolve or peek is answered with a payload if and only if its own client and tenant pushed that payload under the uri at most 90 s before and have not resolved it since |
| PushedRequests.CleanedRows | server/utils/cleanup.ts:77-77 | A cleanup deletes exactly the expired requests |
| PushedRequests.ParStore.Push | server/oauth/par.ts:28-37 | The request is stored unused under a fresh uri |
| PushedRequests.ParStore.Resolve | server/oauth/par.ts:50-73 | Claims the row if it is this client's and unused, and answers its payload if it has not expired |
| PushedRequests.ParStore.Peek | server/oauth/par.ts:80-100 | Answers what a resolve would, and changes nothing |
| DeviceCodes.DeviceCodeTable.Handle | server/oauth/grants/device-code.ts:17-62 | A poll of another client's or tenant's code is unknown; of an own one it gets the answer of its case, written out on the row, and writes exactly the poll, the five seconds of a slow_down, or the redemption |
| DeviceCodes.AnswerIff | server/oauth/grants/device-code.ts:30-59 | Each answer is given exactly in its case: tokens if and only if the code is in time, approved for that user, and the user exists; access_denied exactly when denied, already redeemed exactly when redeemed, slow_down exactly for a pending code polled before its interval is over |
| DeviceCodes.DeviceCodeTable.Approve | server/routes/oidc.ts:421-437 | Approves exactly a pending, unexpired code of the tenant |
| DeviceCodes.DeviceCodeTable.Deny | server/routes/oidc.ts:440-456 | Denies exactly a pending, unexpired code of the tenant |
| DeviceCodes.PollingArithmetic | server/oauth/grants/device-code.ts:36-45 | After any sequential polling of a pending code: interval = 5 + 5 · slow_downs, pollCount = polls in time, at most 121 authorization_pending answers |
| DeviceCodes.PendingWaited | server/oauth/grants/device-code.ts:38-44 | An authorization_pending answer comes at least the current interval after the previous poll of any kind |
| DeviceCodes.BoundIsTight | server/oauth/grants/device-code.ts:36-45 | A device polling every five seconds gets 121 such answers |
| DeviceRuns.OneRedemption | server/oauth/grants/device-code.ts:47-54 | In every interleaving at most one poll gets tokens, and they are for the user who approved |
| DeviceRuns.ClaimAnswers | server/oauth/grants/device-code.ts:47-59 | In every reachable state the claim that turns a code redeemed gets tokens for the approver if and only if that user exists; a claim of a code no longer approved changes nothing |
| DeviceRuns.FirstDecisionCounts | server/routes/oidc.ts:421-456 | In every interleaving in order of time, the first approval or denial in the code's tenant before its expiry decides it, and no other |
| DeviceRuns.LookupAnswers | server/oauth/grants/device-code.ts:20-36 | A poll of another client or tenant is told that the code is unknown; another one is answered, or goes on, by the row's expiry and status |
| DeviceRuns.ForeignPollUnknown | server/oauth/grants/device-code.ts:20-30 | A poll that a client starts for a code of another client or tenant, or one that is gone, is told that the code is unknown, and only such a poll |
| DeviceRuns.RemovedIff | server/utils/cleanup.ts:75-75 | A code is deleted exactly by a cleanup that finds it expired or redeemed |
| DeviceRuns.StatusStep | server/oauth/grants/device-code.ts:36-54 | Each statement keeps the status or takes one edge pending→approved, pending→denied, approved→redeemed, the last only by a claim |
| DeviceRuns.StatusPath | server/routes/oidc.ts:421-456 | Over any continuation of any run the status only moves along the path, stale poll writes included |
| DeviceRuns.RecordsExactIff | server/oauth/grants/device-code.ts:38-44 | While the row exists, the poll count equals the polls written if and only if no poll wrote after another had written since its own read, and the interval is 5 + 5 · slow_downs if and only if no slow_down wrote after another slow_down had written since its own read |
| DeviceRuns.PollLost | server/oauth/grants/device-code.ts:43-44 | Two overlapping first polls are both told authorization_pending and counted as one |
| DeviceRuns.SlowDownLost | server/oauth/grants/device-code.ts:38-41 | Two overlapping polls are both told slow_down and the interval grows by five once |
| DeviceRuns.RacingPollsUndercount | server/oauth/grants/device-code.ts:38-44 | In every run the stored interval and poll count are at most what the polls written account for |
| DeviceRuns.UninterruptedPoll | server/oauth/grants/device-code.ts:17-62 | A poll nothing interrupts is the sequential poll |
| BackchannelLogout.DeliveryQueue.Enqueue | server/services/backchannel-logout.service.ts:21-36 | One pending row, due at once, exactly for a client with a non-empty URI |
| BackchannelLogout.DeliveryQueue.Drain | server/services/backchannel-logout.service.ts:53-115 | Picks at most 50 due rows (all if fewer), each once; every picked row gets its attempt, every other stays; the result counts the deliveries |
| BackchannelLogout.DeliveryQueue.Deliver | server/services/backchannel-logout.service.ts:66-112 | One attempt: failed without a session, delivered, or one more attempt with backoff and failure at the third |
| BackchannelLogout.PostedAtMostThrice | server/services/backchannel-logout.service.ts:8-10 | Over all runs with serialised drains a delivery is POSTed at most three times, and delivered if and only if POSTed once more than it failed |
| BackchannelLogout.RetriesBackOff | server/services/backchannel-logout.service.ts:99-106 | The second POST leaves at least 5 s after the first reply (or timeout), the third at least 30 s after the second |
| BackchannelLogout.NextDue | server/services/backchannel-logout.service.ts:99-106 | A pending delivery is due exactly 5 s after the first reply, and 30 s after the second |
| BackchannelLogout.DeliveredIffAcknowledged | server/services/backchannel-logout.service.ts:93-97 | A delivery is delivered if and only if one of its POSTs was acknowledged, which then is its last |
| BackchannelLogout.FailsOnlyThen | server/services/backchannel-logout.service.ts:66-112 | A delivery fails only after three POSTs, or when a drain finds its session gone |
| BackchannelLogout.FinishedStays | server/services/backchannel-logout.service.ts:58-58 | A delivered or failed row never changes and is never POSTed again |
| BackchannelLogout.DrainProgresses | server/services/backchannel-logout.service.ts:53-115 | A drain with a due row strictly lowers the sum of (3 − attempts) over pending rows; one without changes nothing |
| EndSession.LogoutEndpoint.GetOrCreateOidcSession | server/oauth/sessions.ts:12-53 | Answers a live session of this browser, client and tenant: an existing one and no change, or a fresh one if there was none |
| EndSession.CreateKeepsOneLiveIff | server/oauth/sessions.ts:21-50 | The insert keeps at most one live session per browser, client and tenant if and only if there still is none when it runs |
| EndSession.TwoCreators | server/oauth/sessions.ts:21-50 | Two calls that both find none before either inserts leave two |
| SessionRaces.LiveSessionsBoundIff | server/oauth/sessions.ts:21-50 | From any moment of any interleaving on: the calls under way and any logouts never leave more than n live sessions of a browser at a client if and only if the live ones and the inserts to come are at most n, and so are the calls that have yet to look or to insert |
| SessionRaces.AnyNumberOfSessions | server/oauth/sessions.ts:21-50 | With calls that start anew, more than n live sessions are reached from anywhere, for every n |
| SessionRaces.UninterruptedIsHandler | server/oauth/sessions.ts:21-50 | The statements of one call, nothing in between, find a live session or open one |
| EndSession.LogoutEndpoint.Confirm | server/routes/oidc.ts:508-538 | Selects the browser's live sessions, each once, and ends them one by one |
| EndSession.ConfirmEndsEverything | server/routes/oidc.ts:508-538 | Afterwards no session of that browser and tenant is live, tokens under the ended sessions are revoked, other sessions stay, and each ended session has exactly one new delivery if its client has a URI and none otherwise |
| EndSession.QueuedRows | server/services/backchannel-logout.service.ts:30-35 | Each new delivery is for an ended session, goes to its client's URI, and is pending, unattempted and due |
| EndSession.TokensSurviveIff | server/routes/oidc.ts:512-523 | A session of that browser keeps an unrevoked token if and only if it had one and had already been ended before |
| EndSession.CodeOutlivesLogout | server/oauth/grants/authorization-code.ts:92-105 | A code of an ended session still mints tokens under it, which the next logout leaves alive |
| SigningKeys.KeyService.EnsureKeysInitialized | server/services/keys.service.ts:64-92 | Leaves the initialized table and empty caches |
| SigningKeys.InitializedOnce | server/services/keys.service.ts:64-92 | Booting changes no row, ensures an active and a next key adding at most one of each, and booting again adds nothing |
| SigningKeys.KeyService.GetActiveSigner | server/services/keys.service.ts:94-115 | The cached signer for less than 60 s, else the oldest active key, which is then cached |
| SigningKeys.KeyService.GetVerificationKey | server/services/keys.service.ts:117-136 | Available if cached for less than 60 s, or present and not retired past its expiry; caches exactly what it read |
| SigningKeys.PublishedIffVerifiable | server/services/keys.service.ts:138-152 | The published keys are the verifiable ones, except in the one millisecond a retired key expires |
| SigningKeys.KeyService.RotateKeys | server/services/keys.service.ts:155-186 | On the rows: a next key becomes active, activated now, an active one retired with its expiry, a fresh next key is inserted, no other row changes, and the caches are emptied; fails without a next key |
| SigningKeys.KeyService.RotateSigningKeyIfDue | server/services/keys.service.ts:191-198 | Rotates, with a day of grace, exactly when the active key it reads was activated at least 90 days ago, and otherwise changes nothing |
| KeySchedule.RotatesIffDue | server/services/keys.service.ts:191-198 | With one active and one next key the job never fails, and rotates if and only if the active key was activated at least 7,776,000,000 ms before |
| KeySchedule.NeverOverdue | server/services/keys.service.ts:155-198 | After a boot and any number of runs of the job at any times there is one active and one next key, and the active one is younger than 90 days at every run's end |
| KeyCounts.KeysDated | server/services/keys.service.ts:64-186 | In every run, whatever its parameters, a key has an activation date exactly if it is or was active, and an expiry exactly if it is retired |
| KeyCounts.CleanupRemoves | server/utils/cleanup.ts:74-74 | A cleanup deletes exactly the retired keys that expired before its clock reading |
| KeyCaches.AcceptedOnlyIfRecent | server/services/keys.service.ts:117-136 | In every run a replica accepts a key only if it was verifiable less than a minute before |
| KeyCaches.SignsOnlyWithRecent | server/services/keys.service.ts:94-115 | In every run a replica signs only with a key that was the oldest active one less than a minute and a latency before |
| KeyCaches.VerifyRemembers | server/services/keys.service.ts:117-136 | A verification leaves the key in the cache, for less than a minute, exactly if it accepted it; a key cached before keeps its time |
| KeyRotation.GraceSufficesForEveryRun | server/services/keys.service.ts:94-186 | In every run of signing, caching, serialised rotation, boot and cleanup on any number of replicas, every unexpired token verifies on every replica, if the grace covers two latencies, the 60 s cache and the 900 s lifetime |
| KeyRotation.NextCovered | server/oauth/jwt.ts:13-32 | Each statement of each replica keeps: every token, cached signer and fetched signer is outlasted by its key |
| KeyRotationLimits.SafeIffGraceSuffices | server/services/keys.service.ts:155-186 | Every run is safe if and only if grace ≥ 2 · latency + 959,998 ms |
| KeyRotationLimits.SourceGrace | server/services/keys.service.ts:155-156 | With the 24 h grace every run is safe if and only if latencies stay within 42,720,001 ms |
| KeyRotationLimits.GraceNeeded | server/services/keys.service.ts:94-115 | With any smaller grace there is a run with an unexpired token no longer verifiable on some replica |
| KeyCounts.StatusStep | server/services/keys.service.ts:155-186 | Whatever the parameters, one statement moves a key's status at most one step from next over active to retired, deletes only expired keys, and brings no deleted key back |
| KeyCounts.StatusNeverFalls | server/services/keys.service.ts:155-186 | Over any continuation of any run a key's status never falls, and a deleted key never comes back |
| KeyCounts.KeysBetweenRotations | server/services/keys.service.ts:155-186 | After every run, once booted and between rotations: active keys are one plus the rotations abandoned before retiring; next keys are one plus those minted by later boots minus the rotations abandoned before inserting |
| KeyCounts.OneActiveOneNextIff | server/services/keys.service.ts:154-186 | There is exactly one of each if and only if no rotation was abandoned before retiring and later boots minted as many next keys as abandoned rotations lost |
| KeyCounts.AdvanceTallied | server/services/keys.service.ts:64-186 | Every statement of every replica keeps the two counts, in the middle of a rotation too |
| KeyCounts.AbandonedRotation | server/services/keys.service.ts:165-176 | A rotation abandoned after the promotion leaves two active keys and no next one |
| KeyCounts.BootInsideRotation | server/services/keys.service.ts:80-88 | A boot between promotion and the end of the rotation leaves two next keys |
| AuditLog.AuditStore.LogAudit | server/utils/audit.ts:45-81 | Appends one row hashed over the number after the last row's and stored under the number the sequence gives, every field of the entry in its own column, chained to the last row's hash |
| AuditLog.AuditStore.Verify | server/routes/admin/audit.ts:104-139 | Checks exactly the rows the reader sees with fewer than `limit` newer ones, min(limit, all) of them, and answers intact if and only if each carries the hash of its fields and names the hash of the row numbered just before it; at most 100 issues are listed, oldest first |
| AuditLog.WindowIsNewest | server/routes/admin/audit.ts:108-113 | The rows checked are exactly those with fewer than `limit` newer visible rows, oldest first |
| AuditChain.AlterationReported | server/routes/admin/audit.ts:126-131 | A row whose hashed fields are no longer those of its hash is reported to every reader who sees it and fewer than `limit` newer rows |
| AuditLog.AuditStore.CheckRow | server/routes/admin/audit.ts:126-135 | content_tampered exactly if the recomputed hash differs, chain_broken exactly if the stored link is not the previous number's hash |
| AuditLog.AuditStore.Bridge | server/routes/admin/audit.ts:115-124 | The lookup over the covered range of all tenants holds the hash of the row before each visible row, if that row is stored |
| AuditLog.AuditStore.Export | server/routes/admin/audit.ts:143-176 | For every page size, and whatever is appended to and purged from the log between the page queries: the rows written ascend, every row visible at all the queries is written, and every row written was visible at one; with one unchanging table exactly its rows |
| AuditLog.ExportPages | server/routes/admin/audit.ts:154-172 | The loop over the pages, on the table each query sees; where rows are only appended, all that was visible at first is written, followed by a gapless part of what was appended |
| AuditLog.AuditStore.PurgeExpired | server/utils/cleanup.ts:39-62 | The loop over the tenants, each with its own clock reading, deletes the rows their policies name and counts them |
| AuditLog.PurgedIffPastRetention | server/utils/cleanup.ts:43-59 | A row is purged if and only if a policy of its tenant with a positive number of days has it older than that many days, by a whole millisecond unless the policy reaches back before 1970 |
| AuditChain.PayloadDetermines | server/utils/audit.ts:24-43 | No two different rows have the same payload text, whatever quotes, commas or braces their fields contain |
| AuditChain.SameHashSamePast | server/routes/admin/audit.ts:126-136 | From row n down: the same stored hash forces equal hashed fields in all rows 1..n of two logs that pass the check |
| AuditChain.TamperEvident | server/routes/admin/audit.ts:104-139 | Two logs over 1..n that pass the full check and end in the same hash have the same length and agree on every hashed field of every row |
| AuditChain.ReportExact | server/routes/admin/audit.ts:104-139 | After any run of appends, lost numbers and purges, for every tenant filter and limit, the report is exactly: content_tampered where the number differs from the predicted one, chain_broken where the link does not lead to a stored row just before |
| AuditChain.AppendsVerify | server/utils/audit.ts:53-75 | After gap-free appends every tenant's window of every limit verifies without issue |
| AuditChain.RetentionReport | server/utils/cleanup.ts:39-62 | After gap-free appends and purges that spare the newest row, the report is exactly chain_broken at the rows whose predecessor was purged |
| AuditChain.RollbackReported | server/utils/audit.ts:57-60 | A first append after n lost numbers is reported as tampered if and only if n > 0 |
| AuditChain.UnhashedFieldsUnprotected | server/utils/audit.ts:24-43 | Logs that differ only in target, IP address and user agent get the same report |
| Crc32.BuildTable | server/services/png-encoder.ts:26-37 | Every table entry is eight polynomial steps from its index |
| Crc32.Crc32Fallback.Compute | server/services/png-encoder.ts:27-43 | For every buffer the table-driven loop on signed 32-bit numbers computes the bit-at-a-time CRC-32 |
| Crc32.LookupIsEightBits | server/services/png-encoder.ts:39-41 | One table step equals eight message-bit clocks of the 32-bit register |
| Crc32.CheckValues | server/services/png-encoder.ts:27-43 | The CRCs of nothing, of FF FF FF FF, and of that followed by 80 are 00000000, FFFFFFFF and 12477CDF |
| Crc32.PolynomialTerms | server/services/png-encoder.ts:30-33 | The polynomial's bits are the terms x^26 + x^23 + x^22 + x^16 + x^12 + x^11 + x^10 + x^8 + x^7 + x^5 + x^4 + x^2 + x + 1 |
| Crc32.BurstDetected | server/services/png-encoder.ts:27-43 | Messages that differ only inside a window of at most four bytes have different CRCs |
| Png.BuildChunk | server/services/png-encoder.ts:12-19 | Length, type, data and CRC of type and data, big-endian |
| Png.EncodePng | server/services/png-encoder.ts:51-82 | The in-place encoder gives the specified bytes or the specified error |
| Png.FilterRows | server/services/png-encoder.ts:65-72 | Every row copy stays in bounds and the rows are disjoint: the result is each scanline behind its filter byte |
| PngReader.RoundTrip | server/services/png-encoder.ts:51-82 | A reader that checks signature, lengths, CRCs, header and filter bytes recovers width, height and pixels of every encoded image |
| PngReader.EncodeSucceeds | server/services/png-encoder.ts:51-58 | Encoding fails exactly for a wrong buffer length, dimensions beyond the header's fields, or compressed data beyond a chunk |
| PngReader.ReadWrittenChunk | server/services/png-encoder.ts:12-19 | A written chunk followed by anything is read back as its type and data, leaving the rest |
| PngReader.DamagedChunkRefused | server/services/png-encoder.ts:12-19 | A chunk altered inside a window of at most four bytes is refused |
| PngReader.DamagedImageRefused | server/services/png-encoder.ts:51-82 | So is every image whose data was altered that way |
| CidrBits.Mask4IsPrefixEquality | server/middleware/ip-whitelist.ts:15-22 | For all 32-bit values and prefixes 0..32 the signed mask test holds if and only if the quotients by 2^(32−p) agree |
| CidrBits.Mask6IsPrefixEquality | server/middleware/ip-whitelist.ts:45-52 | The same for 128 bits and the BigInt mask |
| CidrBits.ShorterPrefix | server/middleware/ip-whitelist.ts:15-22 | Agreement on a longer prefix implies agreement on every shorter one |
| Ipv4Text.QuadIsRead | server/middleware/ip-whitelist.ts:11-13 | Every dotted quad is valid and the shifted, or-ed 32-bit result is its value |
| Ipv4Text.OnlyQuads | server/middleware/ip-whitelist.ts:56-63 | Every valid text is a dotted quad of decimals up to 255 without leading zeros |
| Ipv6Text.AddressIsValid | server/middleware/ip-whitelist.ts:65-75 | Every address of at most eight groups, or at most seven around one "::", is accepted |
| Ipv6Text.ValidIsAddress | server/middleware/ip-whitelist.ts:65-75 | Nothing else is accepted |
| Ipv6Text.GroupIff | server/middleware/ip-whitelist.ts:65-75 | A group is one to four hexadecimal digits of either case |
| Ipv6Values.CompressionUndone | server/middleware/ip-whitelist.ts:26-37 | Replacing any run of zero groups of an eight-group address by "::" changes neither expansion nor value |
| Ipv6Values.ExpandIdempotent | server/middleware/ip-whitelist.ts:26-43 | For every accepted text expansion succeeds, is accepted, is its own expansion, and reads as the address's value |
| Ipv6Values.ExpansionKeepsValue | server/middleware/ip-whitelist.ts:39-43 | The reduce over the expansion is the address's positional value |
| Ipv6Values.ShortTextsAccepted | server/middleware/ip-whitelist.ts:65-75 | One to seven groups without "::" are accepted and mean what they mean after "::" |
| Ipv6Values.EmptyTextAccepted | server/middleware/ip-whitelist.ts:65-75 | The empty text is accepted and expands to 0000 |
| Cidr.Ipv4Matches | server/middleware/ip-whitelist.ts:77-103 | On texts: an IPv4 entry is parsed as written and matches exactly the addresses with the same leading bits |
| Cidr.Ipv6Matches | server/middleware/ip-whitelist.ts:77-107 | On texts: an IPv6 entry is parsed as written and matches exactly the addresses with the same leading bits |
| Cidr.MatchesOnly | server/middleware/ip-whitelist.ts:97-108 | Whatever matches is an address of the entry's version with the entry's leading bits |
| Cidr.ParsedEntry | server/middleware/ip-whitelist.ts:77-93 | An accepted entry is its network, a slash and the prefix in plain decimals, in range for its version |
| Cidr.NotBoth | server/middleware/ip-whitelist.ts:56-75 | No text is valid as both versions |
| Cidr.ShorterPrefixMatches | server/middleware/ip-whitelist.ts:97-108 | What matches network/q matches network/p for every p ≤ q |
| Cidr.Allows | server/middleware/ip-whitelist.ts:133-149 | The guard admits exactly on an empty list or some matching entry |
| MemoryCache.Cache.GetValue | server/services/cache.service.ts:25-32 | Answers the live value and removes at most a dead entry |
| MemoryCache.Cache.SetValue | server/services/cache.service.ts:34-36 | Stores the value, without expiry for a missing or zero TTL |
| MemoryCache.Cache.Increment | server/services/cache.service.ts:42-51 | Counts on from the live value, keeping its expiry, or starts at 1 with a new one |
| MemoryCache.Cache.GetAndDelete | server/services/cache.service.ts:53-59 | Answers the live value and removes the key |
| MemoryCache.Cache.SweepAll | server/services/cache.service.ts:62-67 | Drops exactly the dead entries |
| MemoryCache.CacheRefinesMap | server/services/cache.service.ts:18-68 | For every sequence of operations the cache gives the answers of a timed map that never drops an entry |
| MemoryCache.SweepsInvisible | server/services/cache.service.ts:61-67 | Histories that differ only in when the cache is swept get the same answers |
| MemoryCache.ReadsLastSet | server/services/cache.service.ts:25-59 | After a set, and whatever the cache is then used and swept for under other keys, the value is read back, or taken, exactly until its TTL is over, for ever without one |
| MemoryCache.ReadsNothingOnceTaken | server/services/cache.service.ts:38-59 | After a delete or a taking read nothing is read until the key is written again |
| MemoryCache.IncrCountsOn | server/services/cache.service.ts:42-51 | An increment counts on from any integer the key holds alive, and keeps its expiry |
| RateLimit.Admit | server/middleware/rate-limit.ts:21-40 | Admits unless the incremented count exceeds the limit, and tells the remaining budget; admits everybody when the cache fails |
| RateLimit.HitNumber | server/middleware/rate-limit.ts:25-27 | However the cache is used and swept otherwise, a hit is told its number in the window opened by the first hit |
| RateLimit.AtMostLimitPerWindow | server/middleware/rate-limit.ts:32-35 | At most limit requests are admitted per counter window |
| RateLimit.LimiterBound | server/middleware/rate-limit.ts:21-35 | Over every history of the cache in which the key is used by its limiter only, at most 2 · limit − 1 requests get through in any half-open interval of the window's length |
| RateLimit.AtMostTwiceLessOne | server/middleware/rate-limit.ts:32-35 | The bound on the hits' times alone |
| RateLimit.BoundIsTight | server/middleware/rate-limit.ts:32-35 | For every limit and window there is a history that reaches that bound |
| AlertLimiter.AlertRateLimit.CheckRateLimit | server/services/alert.service.ts:44-53 | Admits and records, or refuses and changes nothing |
| AlertLimiter.AtMostPerMinute | server/services/alert.service.ts:44-53 | For every sequence of calls in order, of any tenants, any half-open 60 s interval holds at most maxPerMinute admitted alerts of a tenant |
| AlertLimiter.RefusedIffFull | server/services/alert.service.ts:47-49 | A call is refused if and only if the 60 s before it already hold that many |
| Captcha.CaptchaService.IssueChallenge | server/services/captcha.service.ts:68-103 | A fresh challenge with three attempts, for 120 s |
| Captcha.CaptchaService.VerifyChallenge | server/services/captcha.service.ts:110-160 | The branches of a guess: expired, wrong with attempts left, burnt, or a pass |
| Captcha.CaptchaService.ConsumeCaptchaPass | server/services/captcha.service.ts:170-176 | Removes the pass and accepts it only alive and for its identity |
| Captcha.CaptchaService.Guard | server/middleware/captcha-guard.ts:20-52 | The guard's decision in each mode, and what it consumes; everybody gets on when the cache fails at the counter, and when it fails at the pass, which may or may not be deleted by then, whoever gets that far |
| CaptchaRuns.OnePassPerChallenge | server/services/captcha.service.ts:110-160 | Over all runs a challenge yields at most one pass, after at most two wrong guesses and at most 120 s after its issue |
| CaptchaRuns.OneLoginPerPass | server/services/captcha.service.ts:162-176 | Over all runs a pass admits at most one login, of the challenge's identity, within 240 s of the issue |
| CaptchaRuns.GuessAnswered | server/services/captcha.service.ts:110-160 | After any run: a guess at an unsolved challenge in time, up to the millisecond it ends in if the cache still has it, wins a pass for 120 s if it solves the puzzle as issued, and otherwise is told the attempts left, or burns it the third time; every other guess is told that the challenge has expired |
| CaptchaRuns.AdmittedIff | server/middleware/captcha-guard.ts:27-47 | After any run, in enforce mode with a captcha due, a login gets on if and only if it presents a pass nobody has presented, won less than 120 s ago with a challenge issued to its identity |
| CaptchaRuns.RefusedIff | server/middleware/captcha-guard.ts:20-47 | After any run, in every mode: the guard refuses a login if and only if it enforces, a captcha is due for the identity, and no pass that holds is presented; it takes the presented pass away exactly if it enforces and a captcha is due, and changes nothing else |
| CaptchaRaces.UninterruptedIsHandler | server/services/captcha.service.ts:110-160 | The statements of one verification, nothing in between, are the handler |
| CaptchaRaces.NoMorePassesIff | server/services/captcha.service.ts:116-160 | From any moment of any interleaving on, an issued challenge yields no further pass in any continuation if and only if it is open no more and no verification of it is in flight between its read and its last write |
| CaptchaRaces.TwoPasses | server/services/captcha.service.ts:118-157 | Two verifications that both read the challenge before either deletes it both win a pass |
| CaptchaGuesses.AttemptsExactIff | server/services/captcha.service.ts:136-147 | Over any interleaving from its issue on, and while it is stored, a challenge has three attempts less the wrong guesses told if and only if no verification wrote a wrong guess after another one had been told since its own read |
| CaptchaGuesses.TwoWrongGuesses | server/services/captcha.service.ts:136-147 | Without such a write at most two guesses are answered as wrong with attempts left |
| CaptchaGuesses.WrongGuessesBoundIff | server/services/captcha.service.ts:116-147 | From any moment of any interleaving on, and for every n: at most n guesses at an issued challenge are answered as wrong with attempts left, whatever runs, if and only if it cannot be read with two attempts any more, neither now nor after a write in flight, and those told and those about to be told are at most n |
| CaptchaGuesses.NoMoreWrongGuessesIff | server/services/captcha.service.ts:116-147 | No further such answer comes in any continuation if and only if the challenge is not open with two attempts or more and no verification is about to tell one |
| CaptchaGuesses.IssueStarts | server/services/captcha.service.ts:68-103 | Every issue in every run is such a beginning: three attempts, nothing told, nobody about to write |
| CaptchaGuesses.AnyNumberOfWrongGuesses | server/services/captcha.service.ts:136-147 | An open challenge with two attempts left or more admits any number of wrong guesses that overlap, and is open still |
| CaptchaRuns.RequiredIff | server/services/captcha.service.ts:33-54 | A captcha is due if and only if the identity's current ten-minute window since the last clear holds at least two failures |
| Baseline.BaselineTable.UpdateBaseline | server/services/risk.service.ts:277-313 | Folds one login into the user's row; other rows stay |
| BaselineRaces.AllLoginsCountIff | server/services/risk.service.ts:277-313 | Over any interleaving of any number of a user's logins, from any row: the row is the fold of all the logins written, and its count is theirs, if and only if none was written after another one had been written since its read; otherwise the count is lower |
| BaselineRaces.LoginLost | server/services/risk.service.ts:277-313 | Two logins that both read before either writes leave the fold of the second one alone |
| BaselineRaces.UninterruptedIsFold | server/services/risk.service.ts:277-313 | Read and write in a row fold the login into the row |
| Baseline.BaselineTable.Recompute | server/jobs/ueba.job.ts:22-80 | Overwrites exactly the rows of users with successful logins in the last 90 days by their buckets and first groups, and counts them |
| Baseline.BaselineTable.LoadPeerGroups | server/jobs/ueba.job.ts:83-95 | The first group listed for each of the users |
| Baseline.FirstGroupIs | server/jobs/ueba.job.ts:83-95 | That group is the one of the first membership that names the user; none without one |
| Baseline.QueriedInTwo | server/jobs/ueba.job.ts:26-36 | The query treats each event by itself and keeps their order |
| Baseline.QueriedOne | server/jobs/ueba.job.ts:26-36 | An event is in it exactly if it is a success of the last 90 days |
| Baseline.BaselineTable.FillBuckets | server/jobs/ueba.job.ts:38-52 | The loop's buckets are the fold of the rows |
| Baseline.JobPerUser | server/jobs/ueba.job.ts:26-75 | After the job each user with such logins has the row of a recompute of that user's logins alone and the user's first group; other rows stay |
| Baseline.FoldAfterRecomputeIff | server/services/risk.service.ts:272-313 | Whatever happened before the job, the row folded on from the one it wrote equals, after every further login, a recompute of all the logins, tenants aside as stated, if and only if none of the further values was seen and pushed out before |
| Baseline.IncrementalIsBatchIff | server/services/risk.service.ts:272-313 | From nothing: fold and recompute agree after every login of a history if and only if no value of it returns after it was pushed out |
| Baseline.IncrementalIsBatchForFew | server/services/risk.service.ts:272-313 | In particular for at most twenty different values per list the two rows are equal but for the tenants, the last login's in the fold and the first one's in the recompute |
| Baseline.StaysEqualIff | server/services/risk.service.ts:284-289 | From agreeing lists one more login keeps them agreeing if and only if its value is not one seen before and pushed out |
| Baseline.ReturnBreaks | server/services/risk.service.ts:284-289 | After a history without such a return, the next login makes fold and recompute differ exactly if it is one |
| Baseline.TwentyOneDiffer | server/services/risk.service.ts:284-289 | Twenty-one different values and the first again end with different lists |
| Baseline.TwiceRoundEqual | server/services/risk.service.ts:284-289 | The same twenty-one values twice over end with equal lists again, although values returned |
| Baseline.IncrementalKeeps | server/services/risk.service.ts:277-313 | After any history the lists are free of duplicates and empty values, at most 20 long, hold values of the history only, and the latest login's among them; hours are all those seen, each once |

## Left out

- Baseline.IncrementalIsBatchIff: says when the fold and the recompute agree after every login; for a history with returns it does not say whether they agree at its end, only each step does (`Baseline.StaysEqualIff`). The rows are taken in login order, which the query does not ask for.
- BaselineRaces.AllLoginsCountIff: the nightly job, whose write may fall between a login's read and its write, is not part of these runs.
- Ipv6Text.ParseHex: reads leading hexadecimal digits; the white space, sign and 0x prefix parseInt would skip never reach it, because validation comes first.
- Cidr.IsIpInCidr: `isIpv4InCidr` and `isIpv6InCidr` called directly on texts that `parseCidr` refuses are not modelled.
- DeviceCodes.DeviceCodeTable.Handle: the tokens a claim leads to are minted in `TokenHandlers.TokenDatabase.MintTokens`; the user code is taken to identify the row, as its unique index does within a tenant.
- MemoryCache.Cache.Increment: counts are unbounded integers, so the loss of precision above 2^53 is not modelled.
- TokenRuns.Step: the first-party refresh (server/routes/auth/session.ts:80-150) keeps the presented token's tenant, where the code takes the user's; its password-expiry checks are part of the input.
- Captcha.Guarded: challenge and pass values are stored as such, not as JSON.
- TokenSessions.SessionDeadIff: continuations that issue a new code in the session are set aside, as any session can be fed that way; every other step of every handler is covered.
- Requests that lack a parameter (code, redirect_uri, device_code, pass of the wrong type) are refused, or taken as without it, before anything modelled here.
- The manual maintenance route for key rotation (server/routes/admin/sessions.ts:48-51), which bypasses the scheduler's lock.
- The native CRC of newer runtimes (server/services/png-encoder.ts:21-25) is taken to be CRC-32; deflate itself is not modelled.
- The Redis cache, the event bus and the per-process caches of several processes: their behaviour rests on Redis.
- DPoP and client-assertion replay windows, id tokens, scopes' contents, PKCE's hash: inputs or uninterpreted.
- Front-channel logout URIs and the redirect target of the logout, alert rows and subscribers, metrics and logging.
- The other tables the cleanup job empties (server/utils/cleanup.ts:71-78), each a single DELETE.
- Administration, SCIM, RBAC, feature flags, LDAP, WebAuthn, TOTP and password rules: one-branch facts.
- The user interface, e-mail, SMS and AI services.
