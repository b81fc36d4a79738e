# Verified model of the vulture gateway

The gateway signs desktop clients in, proxies their model traffic through a key of their own,
meters and limits that traffic, and serves a plugin catalogue and update offers. This project
models the parts of it that are protocols or algorithms and proves what they promise, with
Dafny 4.11:

    dafny verify --resource-limit 2000000 --verification-time-limit 0 dfyconfig.toml

Services and stores that the gateway updates in place are classes whose methods are tied to pure
functions of the tables; loops are loops; what runs concurrently is a state machine in which one
Redis command or one database transaction is one step and steps interleave freely. Time is a
non-decreasing number of milliseconds (nanoseconds in the hub cache).

| files | subject |
|---|---|
| Redis, Decimal, Texts | keys with a time to live; decimal printing and parsing; separators in texts |
| TokenStore, TokenService | the token tables, one whole request at a time, and the services and stores as classes |
| TokenMachine, TokenSerial | the same endpoints at operation granularity, and why the two agree |
| TokenChain, TokenOwners, TokenVersions, NoFalseTheft, RevocationRace, Witnesses | theorems over every interleaving |
| DeadStaysDead, TokenLifetimes | theorems over every sequence of requests |
| CodeFlow | authorize, login, code and device |
| VirtualKeyMachine, VirtualKeySerial, VirtualKeyLeaks, VirtualKeyCache, VirtualKeyWitnesses | get-or-create and rotation of a user's key, interleaved |
| VirtualKeyService | the same operations as a class, one at a time |
| Metering, Overshoot, LLMHandler | sliding windows, optimistic admission, the chat endpoint |
| Sniffer, StreamReport, LineEnds, Pump | event splitting, what is reported of a stream, other line ends, and the streaming pump |
| Spacing, RateLimit, Otp, OtpService | timed counters and one-time codes |
| Versions, Distribution, Categories | version order, release choice, category counts |
| HubKeys, HubCache | cache keys, shared flights, jittered expiry |

What the proofs show that the design notes do not say:

- Revocation is immediate for access tokens read before the bump, but the database guard of a
  rotation tests only `used`. A rotation that has read its row before the rows are revoked can
  still leave a fresh refresh token; without one no refresh token survives. The access half then
  fails exactly when a code exchange of the device is about to write its first version at the
  bump (RevocationRace). The reuse verdict and the logout are alike in this.
- The refresh lock is not what keeps a family a chain or an answer unique; it is what keeps a
  presentation inside the grace window from being judged a theft (TokenChain). Such a false
  verdict happens exactly when the rotation is still saving its pair or failed to save it
  (NoFalseTheft).
- The rotation lock of a virtual key is what keeps deletions exact: a key leaks exactly when one
  rotation replaces the row between another's read and write (VirtualKeyLeaks). The cache can
  hold a dead key after a rotation that held the lock throughout, exactly when an older fill was
  still on its way or the rotation's own write failed on a stale entry (VirtualKeyCache).
- A plugin category is counted as often as the dictionary lists it (Categories).
- A send quota is shared between two pairs of destination and address exactly when one destination
  extends the other by a colon and the start of the other's address. No two colon-free destinations
  share one, and with one that holds a colon an IPv6 address can (RateLimit).
- A stream with CR LF line ends is forwarded but never metered from its usage event; in general the
  sniffer misses exactly the empty lines that take a carriage return to see (LineEnds).
- A caller that joins a shared hub request receives a value made before it asked exactly when the
  first caller was by then storing a value made before that (HubCache).

## Model

| member | source | states |
|---|---|---|
| TokenService.RefreshTokenDAO.MarkUsedIfUnused | internal/dao/refresh_token_dao.go:56-64 | Reports a flip exactly when the row exists and was unused, and changes that row's used flag and nothing else: at most one caller ever wins a row. |
| TokenService.RefreshTokenDAO.RevokeFamily | internal/dao/refresh_token_dao.go:66-73 | The table becomes the one in which exactly the rows of the family are revoked. |
| TokenService.RefreshTokenDAO.RevokeByDevice | internal/dao/refresh_token_dao.go:75-82 | The table becomes the one in which exactly the rows of the device are revoked. |
| TokenService.TokenVersionStore.Bump | internal/auth/token_version.go:50-56 | A missing counter counts as zero; a bump is strictly above every value read before it. |
| TokenService.RefreshReplayStore.Save | internal/auth/refresh_replay_store.go:37-46 | The pair is readable under the presented token's hash at every moment of exactly the grace window, and no other token's pair is touched. |
| TokenService.Locker.Acquire | internal/auth/lock.go:22-28 | Succeeds exactly when no unexpired holder exists, and then holds for the TTL. |
| TokenService.Locker.Release | internal/auth/lock.go:31-33 | The key is free at every later moment, whoever held it by now, and all other keys are held as before. |
| TokenService.Signer.Issue | internal/auth/jwt.go:46-68 | The token carries the caller's claims, verifies for its whole lifetime less at most the second its expiry is rounded down by, and not a moment longer; no other token starts or stops verifying. |
| TokenService.GWCodeStore.Issue | internal/auth/gwcode_store.go:39-49 | A code nobody has seen, live for its TTL, carrying the data given. |
| TokenService.GWCodeStore.Consume | internal/auth/gwcode_store.go:52-64 | Returns the data exactly of a live code; the code is found at no later moment, so it is returned at most once; other codes are untouched. |
| TokenService.AuthzStore.Take | internal/auth/authz_store.go:66-78 | Returns exactly a live request, which is found at no later moment, so one login takes it; other requests are untouched. |
| TokenService.Login | internal/handler/login_handler.go:195-223 | A code is issued exactly when the credentials resolved a user and the request was still there; the request is consumed only by such a login, and the code carries its challenge and redirect_uri. |
| TokenService.OAuthService.ExchangeAuthorizationCode | internal/service/oauth_service.go:90-158 | The code is gone whatever the checks say; tokens are granted exactly when it was live, the redirect_uri is the same and the verifier matches (RFC 6749 section 4.1.3, RFC 7636 section 4.6), and otherwise nothing else changes. Granted, a new device and family belong to the code's user, the access token names that user and device and ends with the access lifetime, and the refresh token is that of the one new row, good for the refresh lifetime. |
| TokenService.OAuthService.AcquireRefreshLock | internal/service/oauth_service.go:287-307 | The polling loop: success exactly when the lock is free at its last poll, failure only after the whole wait. |
| TokenService.OAuthService.ExchangeRefreshToken | internal/service/oauth_service.go:169-198 | With the lock free in time, exactly the request specified by TokenStore.Refresh on all tables at once; otherwise nothing but time passes. In plain terms: when it is granted, refused or a theft, and the row, token, pair and expiry each leaves. |
| TokenService.OAuthService.Rotate | internal/service/oauth_service.go:201-255 | Successor row, used flag, device activity, JWT and replay pair together are the specified rotation: the JWT names the row's user and device with the version read, and the successor lasts the refresh lifetime. A row flipped in between gets the saved pair or invalid_grant, and changes nothing. |
| TokenService.OAuthService.ReplayOrTheft | internal/service/oauth_service.go:258-275 | Inside the window the saved pair again; outside it the family is revoked and the device's version bumped. |
| TokenService.DeviceService.Revoke | internal/service/device_service.go:94-102 | Revokes every row of the device and bumps its version; touches nothing else. |
| TokenService.DeviceService.LogoutByRefreshToken | internal/service/device_service.go:46-58 | Revokes the device the token belongs to, and is a silent success for an unknown or empty token. |
| TokenService.DeviceService.RevokeDevice | internal/service/device_service.go:82-91 | Succeeds exactly for the owner of an existing device. |
| TokenService.JwtAuth | internal/middleware/jwt_auth.go:65-104 | Passes exactly public paths and bearers that verify and carry their device's current version; tells the two kinds of refusal apart. |
| TokenSerial.SerialCallIsRefresh | internal/service/oauth_service.go:169-255 | The operation-level machine run without interruption is the atomic request: the two granularities are about the same endpoint. |
| TokenSerial.SerialExchangeIsExchangeCode | internal/service/oauth_service.go:109-158 | So is an uninterrupted code exchange: the same tables and the same pair. |
| TokenSerial.SerialRevocationIsRevokeDevice | internal/service/device_service.go:94-102 | And an uninterrupted revocation. |
| TokenChain.LinearFamilies | internal/service/oauth_service.go:201-255 | For every interleaving, without relying on the lock: each family has exactly one unused row, its rows share device and user, and devices and families match one to one. |
| TokenChain.TheftAndLogoutHitTheSameRows | internal/dao/refresh_token_dao.go:66-82 | In every reachable state revoking a family and revoking its device change the same rows. |
| TokenChain.OneAnswerPerToken | internal/service/oauth_service.go:234-254 | All successes ever returned for one presented token are the same pair, and its refresh token is the immediate successor in the family. |
| NoFalseTheft.TheftOnlyAfterGrace | internal/service/oauth_service.go:258-275 | If every holder finishes before its lock expires and no step fails, a token is judged stolen only when its pair was saved at least a grace window ago. |
| NoFalseTheft.TheftExactlyAfterGrace | internal/service/oauth_service.go:258-275 | Under the same hypotheses a used token is condemned exactly when its window is over, and inside it gets the same pair. |
| NoFalseTheft.LockExcludes | internal/service/oauth_service.go:287-307 | Under the same hypotheses no two calls are in one token's critical section and no rotation loses the race for its row. |
| NoFalseTheft.CondemnedIff | internal/service/oauth_service.go:258-275 | In any run, failures and expired locks included: a used token is condemned exactly when no pair was ever saved for it or the saved pair's window is over; otherwise it is answered with that pair. |
| NoFalseTheft.NeverSavedIff | internal/service/oauth_service.go:234-254 | A used token has no saved pair exactly when the call that committed its rotation is still saving, or failed there. |
| NoFalseTheft.FalseTheftIff | internal/service/oauth_service.go:163 | Hence the exact extent of false verdicts: a token whose window is not over is condemned if and only if its rotation is still saving or failed to save. |
| NoFalseTheft.UnsavedIsCondemnedAtOnce | internal/service/oauth_service.go:258-275 | And nothing stands in the way: such a token, presented once its lock is free, is condemned four steps later, with no time passing. |
| NoFalseTheft.LoserGetsThePair | internal/service/oauth_service.go:220-241 | In any run, a rotation that loses the race for its row is answered with the pair saved for it exactly while that pair's window is not over, and refused otherwise. |
| Witnesses.AnOverrunHappens | internal/service/oauth_service.go:163 | A run from the empty tables into a false verdict, by a lock that expires under its holder. |
| Witnesses.AFailedSaveHappens | internal/service/oauth_service.go:250-252 | A run from the empty tables into a false verdict, by a save that fails, with no time passing at all. |
| TokenVersions.VersionDominance | internal/auth/token_version.go:50-56 | For every interleaving, a JWT whose version was read or written before some bump of its device is rejected in all later states, whenever it is signed. |
| TokenVersions.SeenCoversEveryJwt | internal/service/oauth_service.go:202-245 | Every JWT signed, and every version a rotation in flight holds, counts as read or written: dominance covers rotations running across the bump. |
| TokenVersions.NeverBumpedNeverRejected | internal/middleware/jwt_auth.go:89-97 | All unexpired JWTs of a device nobody has bumped are accepted. |
| TokenVersions.BumpBeforeFirstVersionIsLost | internal/service/oauth_service.go:141-150 | The hypothesis is needed: a bump between a device's creation and its first version write is overwritten. |
| Witnesses.ABumpIsLost | internal/service/oauth_service.go:141-150 | Such a lost revocation is reached by a run from the empty tables. |
| DeadStaysDead.DeadStaysDead | internal/service/device_service.go:40-102 | With requests one at a time: after a logout by either route, a deletion or a theft verdict, no request ever succeeds on the device's credentials again. |
| DeadStaysDead.OthersUnaffected | internal/service/device_service.go:40-102 | Revoking a device changes no answer any other device gets. |
| DeadStaysDead.ServedUntilKilled | internal/middleware/jwt_auth.go:83-97 | The converse: until revoked, every unexpired JWT is accepted and the live refresh token is rotated. |
| TokenLifetimes.RefreshAnswers | internal/service/oauth_service.go:184-275 | Over every run of requests, what every later presentation of a refresh token is answered: unused, tokens exactly while unrevoked and no later than the second in which its lifetime, counted from the request that handed it out, ends; used, the very answer of the request that rotated it, exactly while in addition that request's grace window lasts. |
| TokenLifetimes.AccessAnswers | internal/middleware/jwt_auth.go:83-97 | An access token passes exactly until its lifetime, down to the whole second, is over, and as long as its device's version is what it was when the token was handed out. |
| TokenLifetimes.RevokedIffEnded | internal/service/device_service.go:40-102 | In every state of every run a row is revoked exactly when an earlier request ended its device. |
| TokenLifetimes.EndedForGood | internal/service/device_service.go:40-102 | The four ways to end a device, written out as a caller sees them; after any of them every access and refresh token of the device is denied for ever. |
| TokenLifetimes.TokensNameTheOwner | internal/service/oauth_service.go:139-147 | In every state of every run each access token and each row names the user of the one request that made its device. |
| TokenOwners.RowLifetime | internal/service/oauth_service.go:128 | For every interleaving, each row was made by an exchange or by a rotation of an unused row of the same device, family and user, and expires a refresh lifetime after the exchange, or after the step at which the rotation read the version. |
| TokenOwners.DecidedByLifetime | internal/service/oauth_service.go:184-198 | At operation granularity a call goes past its checks exactly with a row it found unrevoked and whose last second is not over, to a rotation if it found it unused and to the replay otherwise. |
| TokenOwners.TokensNameTheOwner | internal/service/oauth_service.go:245 | For every interleaving each access token and each row names the user for whom the exchange that made its device was begun. |
| RevocationRace.RevokedForGood | internal/dao/refresh_token_dao.go:56-82 | At operation granularity: a revocation beside which no rotation of the device was in flight leaves it without a usable refresh token for ever. |
| RevocationRace.InFlightRevives | internal/dao/refresh_token_dao.go:56-64 | And only then: any rotation in flight can finish right after the revocation and leave a fresh unrevoked token, because the guard tests the used flag only. |
| RevocationRace.RevocationIsFinal | internal/service/device_service.go:94-102 | With no rotation of the device in flight when its rows are revoked, and no code exchange about to write its first version when it is bumped, neither a refresh token nor an access JWT of it works after the bump, however everything else interleaves. |
| RevocationRace.BumpIsFinalIff | internal/service/oauth_service.go:141-150 | The second condition is exact: with no rotation in flight, some continuation accepts an access JWT of the device if and only if at the bump a code exchange is about to write its first version. |
| Witnesses.TheRaceHappens | internal/dao/refresh_token_dao.go:56-64 | The losing situation is reached by a run from the empty tables. |
| CodeFlowMachine.DeviceIsTraceable | internal/service/oauth_service.go:90-139 | For every interleaving each device goes back through one code to one authorize request, with the same redirect_uri, a verifier for the very challenge asked for, the user who logged in, and each hop inside its TTL. |
| CodeFlowMachine.TracesAreInjective | internal/handler/oauth_handler.go:71-79 | No two devices share an exchange, a code, a login or an authorize request. |
| CodeFlowMachine.LoginCompletes | internal/handler/login_handler.go:195-223 | From any state, an authorize request followed by a login within its lifetime ends with a code that carries what was asked and the user who logged in. |
| CodeFlowMachine.ExchangeCompletes | internal/service/oauth_service.go:90-139 | From any state, a code presented in time with its verifier and redirect_uri makes a device for its user and is gone. |
| VirtualKeyService.UserVirtualKeyDAO.Create | internal/dao/user_virtual_key_dao.go:49-58 | The first insert for a user wins; a later one says so and changes nothing. |
| VirtualKeyService.UserVirtualKeyDAO.Replace | internal/dao/user_virtual_key_dao.go:60-74 | Overwrites an existing row with the new key as active, and creates none. |
| VirtualKeyService.Service.ResolveTeamID | internal/service/virtual_key_service.go:223-246 | Answers exactly when one and only one team carries the configured alias. |
| VirtualKeyService.Service.TryLock | internal/service/virtual_key_service.go:249-269 | The polling loop; a refusal means the lock was held for the whole wait, an error gives up at once. |
| VirtualKeyService.Service.PersistFirst | internal/service/virtual_key_service.go:170-199 | A lost insert or a failed write deletes the fresh key; success always answers with the stored row's key. |
| VirtualKeyService.Service.GetOrCreateVirtualKey | internal/service/virtual_key_service.go:52-69 | Succeeds exactly on a readable cache entry, on a usable row, or by signing and storing a key; a hit is returned as it is, otherwise the row's key, which is then what the cache holds unless the write failed; a usable row is untouched, and with neither the answer is a key that was not live before and is the only one added; nobody else's entries change, and a failing call leaves no key behind. |
| VirtualKeyService.Service.SignUnderLock | internal/service/virtual_key_service.go:139-167 | A row that became usable meanwhile is answered as it is; otherwise success is exactly that the row can be read, a key signed and stored, and then the new key is the row's. |
| VirtualKeyService.Service.RevokeAndRegenerate | internal/service/virtual_key_service.go:73-109 | A fresh key takes over the row, the old one is deleted, and the cache no longer holds the old one if either of its two commands got through. |
| VirtualKeyService.ForwardChat | internal/handler/llm_handler.go:294-311 | One-shot healing: exactly when no key is found at all, that a second key is tried only after a dead one, that the last one is accepted exactly if it is live, and that the retry is made with the rotated, live key if and only if not both cache commands failed, or the cache cannot be read again, or the refused key was never in it. |
| VirtualKeyService.RotateAndResolve | internal/handler/llm_handler.go:294-311 | When the rotation succeeds and what the resolution after it finds: the new key, unless both cache commands failed and an entry is left that can be read. |
| VirtualKeySerial.GetOrCreateAlone | internal/service/virtual_key_service.go:52-69 | A call of the interleaved machine that runs alone without failures ends with a key: the cached one, else the usable row's, else one it has just signed, stored and cached; row, cache and live keys are given. |
| VirtualKeySerial.RotationAlone | internal/service/virtual_key_service.go:73-109 | A rotation alone ends with a new key, which the row and the cache hold, the old one deleted. |
| VirtualKeySerial.ConflictAlone | internal/service/virtual_key_service.go:170-199 | A call that loses the insert deletes its own key and answers and caches the row's. |
| VirtualKeyProofs.Agreement | internal/service/virtual_key_service.go:52-69 | For any interleaving of get-or-create calls with the lock always refusable: all successes return one key, the cache holds no other, and when all have finished it is the only live one. |
| VirtualKeyProofs.NoOrphans | internal/service/virtual_key_service.go:139-199 | With rotations added that exclude each other, the live keys are always the row's, those held by calls in flight and those whose deletion failed. |
| VirtualKeyProofs.OnlyTheRowsKeyWhenIdle | internal/service/virtual_key_service.go:73-109 | Hence exactly the row's key when no call is running and every deletion succeeded. |
| VirtualKeyLeaks.LiveKeysExactly | internal/service/virtual_key_service.go:73-109 | For every interleaving, lock or not: the live keys that nobody holds and whose deletion did not fail are the row's and the overwritten ones that no rotation undertook to delete. |
| VirtualKeyLeaks.LeakIff | internal/service/virtual_key_service.go:73-109 | At rest, all deletions having succeeded, another key than the row's is live if and only if some rotation replaced the row between another one's reading it and replacing it. |
| VirtualKeyWitnesses.ALeakHappens | internal/service/virtual_key_service.go:73-109 | A run of two rotations without the lock, all commands succeeding, into such a leak. |
| VirtualKeyCache.StaleIff | internal/service/virtual_key_service.go:280-284 | From any state with a usable row, the cache can come to hold another key than the row's before the next rotation if and only if it already does or some call is about to cache another one. |
| VirtualKeyCache.StaleAfterRotationIff | internal/service/virtual_key_service.go:73-109 | With rotations excluding each other: after a rotation has cached its key the cache can go stale before the next one if and only if some get-or-create call was then about to cache an older key, or the rotation's write failed on a stale entry. |
| VirtualKeyWitnesses.ALateFillHappens | internal/service/virtual_key_service.go:280-284 | A run of a rotation under its lock, all commands succeeding, at whose end the cache holds a deleted key. |
| MeteringModel.CreditsCoverTheCost | internal/service/metering.go:57-64 | The credits are exactly the cost rounded up, except that tokens which would cost nothing cost one. |
| MeteringModel.EstimateIsCeiling | internal/service/metering.go:184-189 | Four characters to a token, rounded up, and none for none. |
| MeteringModel.MemberRoundTrip | internal/service/metering.go:123 | A stored member reads back as its credits, whatever the nonce. |
| MeteringModel.MembersAreDistinct | internal/service/metering.go:123 | Members of different charges are different, so no charge overwrites another. |
| MeteringModel.VisibleIsTheWindow | internal/service/metering.go:137-150 | What a read of the pruned, expiring set returns is exactly the charges of the whole history that still count, with the two clocks less than an hour apart. |
| MeteringModel.MemberSumIsSum | internal/service/metering.go:151-158 | Adding members up in any order gives the history's sum. |
| MeteringModel.FullUntilReset | internal/service/metering.go:99-106 | A window whose charges reach its cap still has at least its cap at every moment up to and including the second at which the oldest of them leaves it, whatever else is charged. |
| MeteringModel.DropsAfterReset | internal/service/metering.go:100 | The reported second is exact: just after it, with nothing new charged, the sum is smaller. |
| MeteringModel.RefusedUntilReset | internal/service/metering.go:88-114 | A window that refused with some reset refuses again, whatever else is charged, until that reset is over. |
| MeteringModel.ReportExplained | internal/service/metering.go:88-114 | The report names, in order, exactly the limited windows whose charges reach their caps, each with the second at which its oldest counting charge leaves it. |
| Metering.MeteringService.WindowSum | internal/service/metering.go:137-160 | The sum and the earliest second are those of the whole history of charges, not of what the store happens to hold. |
| Metering.MeteringService.Precheck | internal/service/metering.go:88-114 | Refuses exactly when the charges of some limited window sum to at least its cap, reports exactly those windows in order with the second at which the oldest charge leaves each, and counts the seconds to the earliest. |
| Metering.MeteringService.Record | internal/service/metering.go:118-134 | Appends one charge to the history, seen by every window, or none when there is nothing to pay. |
| Overshoot.OvershootBound | internal/handler/llm_handler.go:105-153 | For every interleaving with at most k requests in flight of at most M credits each, a limited window never exceeds Cap - 1 + k * M. |
| Overshoot.OvershootFromRest | internal/handler/llm_handler.go:105-153 | The same from rest with a window below its cap. |
| Overshoot.OvershootIsReached | internal/handler/llm_handler.go:105-153 | For every k and M a run reaches exactly that bound. |
| Overshoot.UninterruptedCheckIsPrecheck | internal/service/metering.go:88-114 | A check of the interleaved model that runs without interruption admits exactly when the precheck of the same charges does. |
| LLMHandler.ChatCompletions | internal/handler/llm_handler.go:76-153 | The gates decide in order, each refusal with its status; a request is forwarded exactly when all let it through (an unreadable meter does); only an answer of 200 is charged, once: the tokens the upstream reported or else a token per four characters of prompt and answer, at their own prices, rounded up, and never nothing for something. |
| LLMHandler.RecordUsage | internal/handler/llm_handler.go:313-325 | What one answer adds to the history: the reported usage at the two prices, or the estimate from the two character counts, and no charge for nothing. |
| Events.CutRejoins | internal/litellm/usage.go:52-63 | The events with their delimiters and the remainder are exactly the bytes; no event or remainder holds a blank line. |
| Events.CutIsUnique | internal/litellm/usage.go:52-63 | There is only one such way to cut a stream. |
| Events.CutContinues | internal/litellm/usage.go:52-63 | Cutting the remainder together with what arrives next continues the cut of the whole. |
| LineEnds.BoundariesIff | internal/litellm/usage.go:52-63 | With LF, CR LF and CR all ending lines, the sniffer's events are exactly the stream's if and only if no piece it cuts holds a carriage return directly after a line end. |
| LineEnds.NoEventIff | internal/litellm/usage.go:55 | It sees no event exactly when no two line feeds follow each other; there is none to see exactly when no carriage return follows a line end either. |
| LineEnds.CrLfStreams | internal/litellm/usage.go:55 | Of a stream whose lines end in CR LF it sees nothing, which is right if and only if the stream has no empty line. |
| Events.ReportGrows | internal/litellm/usage.go:82-87 | With more of a stream, text is never uncounted and a usage never forgotten. |
| Sniffer.SSESniffer.Write | internal/litellm/usage.go:44-50 | Whatever part of a write the client takes, the sniffer's whole state is a function of the bytes taken so far. |
| Sniffer.SSESniffer.Consume | internal/litellm/usage.go:52-63 | The splitting loop equals the cut of pending plus new bytes. |
| Sniffer.SSESniffer.ParseEvent | internal/litellm/usage.go:65-88 | Payload lines, markers, decoding errors, text length and the last usage are those of the specification, whose meaning on whole streams StreamReport.StreamIsReported states. |
| Sniffer.AnyChunking | internal/litellm/usage.go:44-63 | Two sniffers whose clients took the same bytes agree on usage, character count and remainder, however the bytes were cut and however partially writes were taken. |
| StreamReport.StreamIsReported | internal/litellm/usage.go:65-88 | Of any stream written as events of data lines, comments and other fields, the report is the usage of the last chunk that carries one, none if none does, and the total length of all chunk texts; chunks that do not decode, empty events and end markers change nothing. |
| SnifferReport.HeldReport | internal/litellm/usage.go:44-63 | Whatever writes it took, once the client has taken such a stream the sniffer holds that report. |
| SnifferReport.WriteAll | internal/litellm/usage.go:44-63 | Such a stream cut into writes anywhere and taken whole ends in that report. |
| Pump.PumpIsSafe | internal/litellm/stream.go:54-115 | Under all interleavings the client holds an in-order prefix of the source; a nil return means all of it, an idle return means the idle time has passed since the last delivered chunk, a cancelled one that the context was. |
| Pump.BilledForWhatWasDelivered | internal/handler/llm_handler.go:149-152 | What is billed is what the delivered bytes say: the whole source after a nil return, never more than it otherwise. |
| Pump.ReturnedIsFinal | internal/litellm/stream.go:87-114 | After returning nothing more is delivered, whatever the reader goroutine still does. |
| Pump.NeverStuck | internal/litellm/stream.go:84-110 | Whenever the pump waits it can return by the deadline even if the reader never comes back, and not before. |
| Pump.IdleSinceLastWrite | internal/litellm/stream.go:84-110 | After a write at some moment an idle return comes no earlier than the idle time after that moment. |
| Pump.Delivers | internal/litellm/stream.go:54-115 | For every division of a source into chunks and every way it can end, some run delivers all of it in order and returns accordingly. |
| Spacing.CountBound | internal/auth/otp_store.go:84-89 | Items in batches of at most m, begun at least r apart: at most m * (T / r + 2) in any closed span T. |
| Otp.OTPStore.Issue | internal/auth/otp_store.go:77-91 | Replaces code, count and resend gate of this purpose and destination, and of no other. |
| Otp.OTPStore.CanResend | internal/auth/otp_store.go:94-101 | Exactly when the last code is at least the resend interval old. |
| Otp.OTPStore.Verify | internal/auth/otp_store.go:106-144 | Accepts exactly the latest code of this purpose and destination while it lives, has not succeeded and was compared fewer than the maximum of times; every submission while it can be tried is counted, right or wrong, and no other key changes. |
| OtpModel.AcceptIff | internal/auth/otp_store.go:106-144 | The stored slot accepts a submission exactly when, by the history of the key, the code is the last issued, alive, not accepted before and with attempts left. |
| OtpModel.SubmitKeeps | internal/auth/otp_store.go:106-144 | A submission keeps slots and histories of all keys in step and is recorded in its own. |
| Otp.OTPStore.EachCodeIsLimited | internal/auth/otp_store.go:122-142 | Each code is compared at most maxAttempts times and accepted at most once. |
| OtpService.OTPService.SendCode | internal/service/otp_service.go:36-66 | The gates in order: what each refusal costs, and that a code issued stays issued when handing it over fails. |
| OtpModel.KeyTextIsInjective | internal/auth/otp_store.go:54-64 | The key strings of codes, counts and gates differ for different kinds, purposes or destinations, whatever a destination contains (a purpose, a constant, holds no colon). |
| OtpService.OTPService.CheckCode | internal/auth/otp_store.go:106-144 | Accepts exactly the code issued last, within its lifetime, not accepted before and after fewer than maxAttempts tries of it; every try is counted; and a check issues nothing: no key's resend gate or log of issues changes. |
| OtpService.OTPService.GuessBound | internal/service/otp_service.go:36-66 | Over any span T at most maxAttempts * (T / resendInterval + 2) guesses are compared for a purpose and destination. |
| RateLimit.RateLimiter.IncrWithWindow | internal/auth/ratelimit.go:49-60 | Counting starts a window only when none runs and never moves a running one. |
| RateLimit.RateLimiter.AllowSend | internal/auth/ratelimit.go:104-110 | Allows exactly while the count is within the quota; a denied attempt does not extend the window. |
| RateLimit.RateLimiter.SlidingBound | internal/auth/ratelimit.go:104-110 | In any half-open interval as long as the window at most twice the quota goes out, and proportionally over longer spans. |
| RateLimit.RateLimiter.RecordFailure | internal/auth/ratelimit.go:63-66 | Adds one failure to the running window, or starts one, without lengthening it. |
| RateLimit.RateLimiter.IsLocked | internal/auth/ratelimit.go:69-78 | Locked exactly when a window runs and holds at least the maximum of failures. |
| RateLimit.RateLimiter.ResetFailures | internal/auth/ratelimit.go:81-86 | No failure counts afterwards; codes sent are untouched. |
| RateLimitModel.SendKeysCollideIff | internal/auth/ratelimit.go:46 | Two destination and address pairs share a counter if and only if they are equal or one comes from the other by moving a leading part of the address, colon included, to the destination. |
| RateLimitModel.ColonFreeKeysDiffer | internal/auth/ratelimit.go:46 | So no two pairs with colon-free destinations share a counter, IPv6 addresses included. |
| RateLimitModel.SendKeysCanCollide | internal/auth/ratelimit.go:46 | A destination that holds a colon can share one with another, through an IPv6 address. |
| RateLimitModel.FailKeysCollideIff | internal/auth/ratelimit.go:42-45 | The same condition for failure counters, which never mix scopes. |
| CategoriesModel.StableSortIsStable | internal/service/catalog_types.go:70 | Sorted by order, nothing lost or added, entries of equal order as they came. |
| CategoriesModel.Conservation | internal/service/catalog_types.go:61-103 | The counts are never fewer than the compatible items, and equal them if and only if no item is in a category the dictionary lists twice. |
| CategoriesModel.DistinctSlugsConserve | internal/service/catalog_types.go:61-103 | With distinct active slugs nothing is lost or counted twice. |
| CategoriesModel.CountedAsOftenAsListed | internal/service/catalog_types.go:61-103 | For every dictionary, an item adds to the counts as often as its category is listed among the active entries, and once if it is uncategorized. |
| CategoriesModel.ResponseIds | internal/service/catalog_types.go:61-89 | Each active slug as often as listed, zero counts kept, sorted by order, `other` once and last. |
| CategoriesReport.WalkFollows | internal/service/plugin_service.go:154-171 | The walk starts without a cursor, asks each page with the cursor of the one before, and ends with the first page without one, an error, or the limit. |
| CategoriesReport.CountIsCounted | internal/service/catalog_types.go:61-103 | The number at a category is the size of the set of items that are offered, by version and by host target for the platform, and that belong to it. |
| CategoriesReport.ResponseReports | internal/service/catalog_types.go:61-103 | The response lists exactly the active categories, the bucket for the rest last, and counts for each exactly the offered items that belong to it. |
| PluginService.PluginCategories | internal/service/plugin_service.go:147-174 | Errors of the hub are the answer; otherwise the pages are those the cursors lead to, at most 1000, the active categories are listed by order with the last bucket last, and each counts exactly the items offered to this platform and version that belong to it. |
| PluginService.CountPages | internal/service/plugin_service.go:154-171 | The paging loop visits exactly the pages of the walk and fails exactly when one of its requests does. |
| PluginService.BuildCategoriesResponse | internal/service/catalog_types.go:61-89 | The three loops build the specified response. |
| PluginService.ActiveSlugSet | internal/service/catalog_types.go:107-116 | The slugs of the entries not archived. |
| Versions.CompareVersions | internal/service/compat.go:65-88 | The loop computes the comparison. |
| Versions.ParseVersion | internal/service/compat.go:91-109 | The loop computes the numbers of a version. |
| Versions.CompareMeans | internal/service/compat.go:65-88 | Its sign is decided by the first segment that differs, absent ones being zero. |
| Versions.CompareIsAntisymmetric | internal/service/compat.go:65-88 | Reversing the arguments reverses the answer; a version equals itself. |
| Versions.CompareIsTransitive | internal/service/compat.go:65-88 | The order is transitive, strictly where either step is strict. |
| Versions.VersionRoundTrip | internal/service/compat.go:91-109 | Any dotted list of numbers is read back, whatever leading v and pre-release or build suffix it is written with. |
| Versions.VersionIsRead | internal/service/compat.go:91-109 | Any segments are read one by one: a number as itself, anything else or a number beyond 64 bits as 0. |
| Versions.UpdatingKeepsCompatibility | internal/service/compat.go:20-28 | A package compatible with one App version is compatible with every newer one. |
| Distribution.DistributionService.Resolve | internal/service/distribution.go:78-111 | The loop picks a newest release for the channel and platform; an update is offered exactly when it is newer than what runs, with that release's URL, checksum, size and notes, and is mandatory exactly when the release is or what runs is older than its minimum. |
| DistributionModel.ResolveAnswers | internal/service/distribution.go:78-111 | The specified answer means the same: which release, whether offered, whether mandatory, and every field of the offer. |
| DistributionModel.NewestIsFirstMaximal | internal/service/distribution.go:79-88 | The release picked is not older than any other and newer than all before it. |
| DistributionModel.UpdateIffNewer | internal/service/distribution.go:89-96 | An update is offered exactly when some release for this channel and platform is newer than what runs. |
| DistributionModel.NothingOnceInstalled | internal/service/distribution.go:93-96 | A client that installs what it was offered is offered nothing more. |
| DistributionModel.MandatoryIsDownwardClosed | internal/service/distribution.go:98-101 | An update mandatory for a version is offered and mandatory for every older one. |
| DistributionModel.OthersDoNotMatter | internal/service/distribution.go:80-84 | Releases of other channels and platforms make no difference, wherever they stand. |
| HubCache.JitterIsBounded | internal/clawhub/cache.go:145-165 | Under Go's signed remainder the time to live is in [base - delta, base + delta) and always positive; delta is a tenth of the base, at most half a minute, and the key's bias picks the place in the band. |
| HubCache.Provenance | internal/clawhub/cache.go:49-79 | For every interleaving of lookups and shared flights, a value returned was produced by the hub for that key and was good after the call, or the flight it shared, began; an error returned is the hub's and never stored. |
| HubCache.GoodDuringTheCall | internal/clawhub/cache.go:56-71 | A call that shares nobody else's flight is answered with what was good during it. |
| HubCache.JoinDecides | internal/clawhub/cache.go:60-71 | For a call that joins a flight, whatever happens next: its value was good only before it began if and only if, when it joined, the flight had a value made before it began and was storing it; a shared error is always from during the call. |
| HubCache.LateCallerGetsAnEarlierValue | internal/clawhub/cache.go:60-71 | Such a join is reached from the start for every key, value and delay. |
| HubCache.AskAlone | internal/clawhub/cache.go:49-79 | A call that finds nothing stored and nobody asking is answered with what the hub answers, which is stored for exactly the key's time to live. |
| HubCache.HitAlone | internal/clawhub/cache.go:49-56 | A call that finds the key stored is answered with it at once. |
| CachedClient.Cache.CachedGet | internal/clawhub/cache.go:49-79 | Run alone: the hub is asked exactly when the cache is off or neither look finds the key, an error stores nothing, and a value found is younger than base + delta. |
| HubKeys.EscapeInjective | internal/clawhub/caching_packages.go:83 | Escaping a value loses nothing. |
| HubKeys.EncodeInjective | internal/clawhub/caching_packages.go:73-84 | Different fields give different queries. |
| HubKeys.ListKeyInjective | internal/clawhub/caching_packages.go:27-32 | Equal list keys mean equal upstream queries, parameter by parameter. |
| HubKeys.KeysAreSeparate | internal/clawhub/caching_packages.go:28-66 | No two endpoints share a key, and a detail key names one package. |

## Left out

- Identifiers are numbers never drawn before (idgen, random codes); SHA-256 and the S256 transform are taken to be injective; a JWT verifies if and only if it was signed here and has not expired.
- TokenService.OAuthService.ExchangeRefreshToken: does not model Redis or database errors or a cancelled context, which end the request with a system error; at operation granularity every step may fail (TokenMachine).
- TokenService.OAuthService.Rotate: does not model the time between reading the version, stamping the row, signing and saving; in the machine the version read and the row's stamp are one step, and so are signing and saving.
- TokenService.OAuthService.ExchangeAuthorizationCode: does not model the device's name, system and App version, which are copied.
- TokenService.Login: does not model the form token, the credentials and the sign-in methods; the user they resolve, if any, is a parameter.
- TokenService.JwtAuth: does not model the parsing of the header or the two error bodies, nor the issuer and algorithm checks of the JWT library.
- TokenLifetimes.RefreshAnswers: keeps both ways in which an expiry is computed, a lifetime cut to seconds for a first row and an instant cut to seconds for a rotated one; with a lifetime of whole seconds, as configured, they are the same.
- Loopback redirect parsing and the other parameter checks of the authorize endpoint; token_version beyond 64 bits.
- VirtualKeyService.Service.GetOrCreateVirtualKey: does not model the key's alias, budget and team fields; a row whose key is empty or whose status is not active is `active == false`.
- VirtualKeyProofs.Agreement: leaves out rotations and rows already revoked, which VirtualKeyProofs.NoOrphans and the class cover; DeleteForUser is not part of this model.
- VirtualKeyCache.StaleAfterRotationIff: asks for rotations that exclude each other, as the lock intends; VirtualKeyCache.StaleIff asks for nothing. Both are about rows that exist.
- LineEnds.BoundariesIff: is about where events end; a lone carriage return inside an event is not a line end to the sniffer's own splitting into lines. A byte order mark is not part of this model.
- Metering.MeteringService.Record: does not model a charge interrupted between two windows or between ZADD and EXPIRE, nor 64-bit overflow of a window's sum; floating point is exact real arithmetic.
- Metering.MeteringService.WindowSum: asks for clocks less than an hour apart by at least a second, because scores are whole seconds.
- Overshoot.OvershootBound: assumes that the metering store answers; LLMHandler.ChatCompletions says that a request is let through when it does not.
- LLMHandler.ChatCompletions: does not model headers, the response body or the key used, which VirtualKeyService.ForwardChat covers; the prompt's character count is a parameter. The image endpoints run the same gates and charge nothing.
- Sniffer.SSESniffer.ParseEvent: takes JSON decoding as an arbitrary function of the payload. UsageFromJSON and the injection of include_usage are not part of this model.
- Pump.PumpIsSafe: the flush callback and the 32 KiB read buffer do not appear; a read may return any bytes with or without an error.
- Otp.OTPStore.Verify: asks for an empty bypass code, as production requires; the development bypass is not part of this model.
- RateLimit.RateLimiter.AllowSend: assumes that INCR and EXPIRE both succeed; a counter whose EXPIRE failed would never end.
- Otp.OTPStore.Issue: takes the code drawn as a parameter; its six digits are not modelled. Requests on one key run one at a time.
- HubCache.Provenance: values are opaque, a read that fails or does not decode is a miss, and expiry is kept in nanoseconds where Redis keeps milliseconds.
- HubKeys.ListKeyInjective: texts are strings of bytes. The skill endpoints have the same shape with their own prefixes.
- PluginService.PluginCategories: skill categories run the same algorithm; translation of list items to the client's shape is field copying.
- Versions.CompareVersions: 64-bit overflow of a segment makes it count as 0, as the code has it; skill compatibility by system is not part of this model.
- HTTP routing, templates, the download proxy, header filtering, configuration, migrations, warm-up and password orchestration are forwarding, wiring or branch-level facts.
