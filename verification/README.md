# ClawNet and Cortex: verified models of the stateful cores

Dafny models of the parts of the repository whose state changes carry invariants, with proofs over every run,
interleaving or input. `dafny verify dfyconfig.toml` checks the project.

Code that updates state in place is a class whose methods update fields (maps for SQL tables and JavaScript Maps,
arrays for secret buffers). Each method is proved equal to a function on the abstract state, and the properties of whole
runs are proved about that function. Code that runs concurrently is cut at its awaits or atomic accesses and is a state
machine over those steps, with any number of callers.

## Files

| files | what they model |
|---|---|
| `Base64`, `Vault`, `VaultKek` | stored-secret encoding, AES-GCM framing, the cached key-encryption key (KEK) |
| `Rotation`, `RotationProofs`, `RotationHistory`, `RotationOutcomes`, `ApiKeyBackend` | the pre-rotation credential backend: state, invariant, whole histories, what callers get, the object over its database |
| `Ledger`, `LedgerService` | credits, delegation keys, and their handlers |
| `MemoryCache`, `MemoryCacheObject`, `TwoTierCache` | the LRU/TTL memory tier, and both tiers with Redis at await granularity |
| `RateLimit`, `Challenges` | the two fixed-window limiters; the one-time WebAuthn challenges |
| `Jwks` | the single-flight JWKS refresh, any number of callers |
| `Pulse`, `PulseStore` | draft approval with the split reject handler |
| `StreamParser` | the incremental event-stream readers |
| `Registry` | the WebAuthn authenticator registry |
| `TeamGroup`, `TailOf` | the fresh-id search; the UTF-8 tail cut |
| `Wrappers`, `Sets` | result types; counting finite sets |

Cryptography is a parameter: `Vault.Aead` and `Rotation.Provider` hold functions, and `Lawful` states what is used of
them (opening inverts sealing with a 16-octet tag; a signature verifies under the signer's public key). Random values,
clocks, parsed request fields and network outcomes are arguments of the steps.

## Where the code does less than its comments or callers expect

Each of these is a lemma, with the exact condition where there is one.

- A discard awaits between its abort and its wipe. If a stage of the same identity lands there, a later inception and
  commit make a deleted credential current (`WipeKeepsValidIff`, `OvertakenDiscardDanglesCurrent`).
- A crash between stage and commit leaves the staged row behind as a live bearer that no abort removes
  (`RestartOrphansStagedRow`, from states that `StageIsReachable` reaches).
- Issuing a credential makes two INSERTs outside a transaction. When the second is refused, or the process dies between
  them, a live bearer of a non-existent identity stays behind (`HalfIssueLeavesStrayBearer`). These two are the only ways
  a row comes to be unaccounted for: `StepAccountedIff` is the exact guard of every step, `RowsAreAccountedFor` the
  statement over runs. A write refused in any other operation changes nothing: each makes its one write before it touches
  memory, or is a transaction.
- A discard keeps the adoption row, so the bearer cannot be adopted again short of drawing the same token by chance
  (`DiscardedAdoptionIsStuck`).
- The additional data that binds a secret to its row protects wrapped values only (`PasteIsRefusedIff`).
- The positive-amount check precedes rounding: requests below half a micro-credit are free (`PositiveRequestIsFreeIff`).
- The empty key is never evicted, so a full store it heads overflows (`SetOverflowsIff`). Callers do not meet this: every
  key the program passes starts with `claw:` or `qcache:` (archive/src-nodejs/cache/index.ts:67-70,
  archive/src-nodejs/routes/api.ts:15-18).
- A refill that waited while its key was set again overwrites the newer value (`WaitingRefillOverwritesNewerSet`), and a
  key set by another process on the same Redis does not reach this one's memory. Memory holds the newest value at every
  moment exactly when neither happens (`StepKeepsFreshIff`, `AlwaysFreshIff`).
- A JWKS waiter never learns that the fetch it waited for failed. `WaiterIgnoresFailure` says exactly when its answer is
  as recent as that fetch, `StaleAnswerIsReachable` gives a run that ends in an expired list.
- A JWKS caller that lost the exchange and parks after the winner has woken the others waits until some later caller wins
  an exchange (`StrandedIff`, `StrandedWaiterIsReachable`).
- A reject that checked before an approval and publication writes after them: the draft shows rejected while its post is
  public (`LateRejectHidesPost`). It happens exactly when a rejection is written while its draft is published
  (`RejectedWithPostIff` for one step, `PostIsHiddenIff` for runs).
- A registration whose INSERT fails has already demoted the primary or revoked the recovery
  credential (`FailedRegistrationChangesNothingIff`).

## Model

| member | source | states |
|---|---|---|
| Base64.DecodeInvertsEncode | archive/src-nodejs/core/api-key-rotation.ts:739-745 | base64 decoding inverts encoding for every octet string |
| Base64.EncodeHasNoColon | archive/src-nodejs/core/vault-crypto.ts:128 | no base64 text contains the colon of the version prefix |
| Base64.EncodeIsStandard | archive/src-nodejs/core/api-key-rotation.ts:739-745 | the encoder's text has four digits of the standard alphabet for every three octets begun, the last group filled up by padding |
| Base64.EncodeVectors | archive/src-nodejs/core/api-key-rotation.ts:739-745 | the test vectors of section 10 of RFC 4648, and the last two digits of its alphabet |
| Base64.UrlSafeDecodes | archive/src-nodejs/core/vault-crypto.ts:127-131 | the decoder reads the URL-safe spelling as well |
| Vault.PlainIsNotVersioned | archive/src-nodejs/core/vault-crypto.ts:127-131 | the `v1:` test never misreads a plain value |
| Vault.UnframeInvertsFrame | archive/src-nodejs/core/vault-crypto.ts:116-150 | reading a blob hands the cipher exactly the iv, ciphertext and tag that were concatenated, for all of them |
| Vault.VersionedReadIff | archive/src-nodejs/core/vault-crypto.ts:127-150 | a versioned value reads exactly when the rest decodes to iv, ciphertext and tag that the cipher opens in the context; short, altered or moved values do not |
| Vault.WrittenForm | archive/src-nodejs/core/vault-crypto.ts:108-121 | a secret is written with the version prefix exactly when there is a KEK, else as plain base64 |
| Vault.RoundTrip | archive/src-nodejs/core/vault-crypto.ts:108-150 | decryption returns the plaintext for every payload and context, also when it was written before a KEK was configured |
| Vault.ReadableWithoutKek | archive/src-nodejs/core/vault-crypto.ts:132-137 | without a KEK exactly the values written without one can be read |
| Vault.PasteIsRefusedIff | archive/src-nodejs/core/vault-crypto.ts:104-106 | a value moved to another context is refused exactly when it was written under a KEK |
| Vault.ConfiguringKekKeepsReads | archive/src-nodejs/core/vault-crypto.ts:19-22 | adding a KEK changes no read that succeeded without one |
| VaultKek.VaultState.Load | archive/src-nodejs/core/vault-crypto.ts:51-89 | one load of the KEK: result, cached state, and the one-time warning |
| VaultKek.KekNeverChanges | archive/src-nodejs/core/vault-crypto.ts:54-89 | after the first successful load every later one returns the same, whatever the environment says by then |
| VaultKek.FirstSettingDecides | archive/src-nodejs/core/vault-crypto.ts:54-89 | loads fail, naming the length found, until the first usable setting; that one decides every later load |
| VaultKek.EncodedKeyIsUsed | archive/src-nodejs/core/vault-crypto.ts:58-66 | a 32-octet key encoded in the environment is the one every load returns |
| RotationProofs.MintedTokenIsBearer | archive/src-nodejs/core/api-key-rotation.ts:115-125 | every minted token matches cn-[a-f0-9]{48} |
| RotationProofs.ContextsAreSeparate | archive/src-nodejs/core/api-key-rotation.ts:33-37 | no two secret slots share an encryption context |
| RotationProofs.ReachableIsValid | archive/src-nodejs/core/api-key-rotation.ts:191-399 | the invariant below holds in every state a run from empty tables reaches |
| RotationProofs.RunKeepsValid | archive/src-nodejs/core/api-key-rotation.ts:199-399 | in every run, live rows and next slots open under their own context to the secret of their public key, and each current credential commits to exactly the stored next key |
| RotationProofs.WipeKeepsValidIff | archive/src-nodejs/core/api-key-rotation.ts:376-399 | the discard transaction keeps that invariant exactly when no stage slipped in after the abort |
| RotationHistory.LineageIsChained | archive/src-nodejs/core/api-key-rotation.ts:285-305 | along the commits of any run each new current key matches its predecessor's commitment, up to the one now in force |
| RotationHistory.CommitmentPinsNextKey | archive/src-nodejs/core/api-key-rotation.ts:658-665 | under a collision-free commitment the predecessor admits no key but the stored next one |
| RotationHistory.StageSucceedsIff | archive/src-nodejs/core/api-key-rotation.ts:240-283 | a stage succeeds exactly when none is pending, the caller names the current credential, and the token is free; the vault never refuses |
| RotationHistory.RestagingPromotesSamePair | archive/src-nodejs/core/api-key-rotation.ts:307-321 | after any aborts, restarts and retries a stage promotes the same public key with the same secret |
| RotationHistory.LiveCredentialSigns | archive/src-nodejs/core/api-key-rotation.ts:325-348 | signing succeeds exactly for live rows and the signature then verifies |
| RotationHistory.OvertakenDiscardDanglesCurrent | archive/src-nodejs/core/api-key-rotation.ts:376-399 | a stage between abort and wipe lets a later commit make a deleted credential current |
| RotationHistory.AdoptionIsAllOrNothing | archive/src-nodejs/core/api-key-rotation.ts:490-610 | adoption adds one row to each table or changes nothing, and succeeds exactly under its documented conditions |
| RotationHistory.ReadoptionReturnsFirst | archive/src-nodejs/core/api-key-rotation.ts:502-527 | adopting again after any run without a discard changes nothing and returns the first credential and adoption row |
| RotationHistory.DiscardedAdoptionIsStuck | archive/src-nodejs/core/api-key-rotation.ts:503-508 | in every run after a discard, adopting the bearer again fails for every argument |
| RotationHistory.RunKeepsSettled | archive/src-nodejs/core/api-key-rotation.ts:358-374 | short of a discard a settled row keeps its public columns and a revocation is permanent |
| RotationHistory.RevokedCredentialIsDead | archive/src-nodejs/core/api-key-rotation.ts:629-637 | a revoked credential resolves, signs and verifies nothing in any later state |
| RotationHistory.RevokedSecretReadsAsZeros | archive/src-nodejs/core/api-key-rotation.ts:361-373 | a revoked secret reads as 64 zero bytes under any KEK and context |
| RotationHistory.FreshBearerResolves | archive/src-nodejs/core/api-key-rotation.ts:629-637 | over any run an issued, half-issued, staged or adopted bearer resolves to its identity until exactly issue time plus TTL, or until the first revocation, discard or abort of its row |
| RotationHistory.RowsAreAccountedFor | archive/src-nodejs/core/api-key-rotation.ts:5-16 | in every run each credential row was current at some point, is the one staged now, was staged when a restart came, or is left from an issue that stopped halfway; without such restarts and issues only the first two remain |
| RotationHistory.StepAccountedIff | archive/src-nodejs/core/api-key-rotation.ts:199-399 | a step leaves a row unaccounted for exactly when it is a restart that forgets a stage, or an issue that stops halfway, of a row never current |
| RotationHistory.HalfIssueAccountedIff | archive/src-nodejs/core/api-key-rotation.ts:216-236 | a half-done issue leaves every row accounted for exactly when it did nothing or drew a token current before |
| RotationHistory.HalfIssueLeavesStrayBearer | archive/src-nodejs/core/api-key-rotation.ts:216-236 | the row it leaves resolves until its expiry, has no identity, and outlives abort, restart and a retried issue |
| RotationHistory.RestartAccountedIff | archive/src-nodejs/core/api-key-rotation.ts:150-158 | a restart leaves every row accounted for exactly when every row it forgets was current before |
| RotationHistory.StageIsReachable | archive/src-nodejs/core/api-key-rotation.ts:199-283 | from empty tables one issue and one stage reach a sound state with a pending stage |
| RotationHistory.RestartOrphansStagedRow | archive/src-nodejs/core/api-key-rotation.ts:150-158 | a restart during a stage leaves a live row that was never current and that abort no longer removes |
| RotationOutcomes.MintIsInjective | archive/src-nodejs/core/api-key-rotation.ts:115-125 | different draws give different tokens |
| RotationOutcomes.BearersAreTheTokens | archive/src-nodejs/core/api-key-rotation.ts:115-125 | the accepted bearers are exactly the tokens a mint can draw, cn- and 48 lower-case hex digits |
| RotationOutcomes.IssueAnswersWhatWasAsked | archive/src-nodejs/core/api-key-rotation.ts:199-238 | when an issue succeeds; its answer and row carry the identity, key, times and commitment asked for |
| RotationOutcomes.StageAnswersWhatWasAsked | archive/src-nodejs/core/api-key-rotation.ts:240-283 | the same for a stage, with the stored next key and the identity's TTL |
| RotationOutcomes.AdoptAnswersWhatWasAsked | archive/src-nodejs/core/api-key-rotation.ts:529-599 | the same for a first adoption, and its adoption row |
| RotationOutcomes.MintedSecretDecides | archive/src-nodejs/core/api-key-rotation.ts:325-348 | over any run, what verifies under a bearer is exactly what verifies under the public key of its minted secret, and it signs with that secret, until the step that ends it |
| RotationOutcomes.RunKeepsTtl | archive/src-nodejs/core/api-key-rotation.ts:292-305 | short of a discard every run, commits included, keeps an identity's TTL |
| RotationOutcomes.StagedBearersKeepInceptionTtl | archive/src-nodejs/core/api-key-rotation.ts:262-274 | after any number of rotations a staged bearer resolves exactly until its issue time plus the inception's TTL |
| RotationOutcomes.CommitInstallsStagedSecret | archive/src-nodejs/core/api-key-rotation.ts:292-305 | a commit stores the secret its stage generated as the next one, and makes the staged credential current |
| RotationOutcomes.FirstRotationPromotes | archive/src-nodejs/core/api-key-rotation.ts:256-261 | the first rotation promotes the next secret generated at inception, however often retried |
| RotationOutcomes.LaterRotationPromotes | archive/src-nodejs/core/api-key-rotation.ts:256-261 | every later one promotes the secret that the stage committed last had generated |
| RotationOutcomes.StageIsUsedUp | archive/src-nodejs/core/api-key-rotation.ts:285-321 | after its commit, abort or a restart a stage can no longer be committed, and trying changes nothing |
| RotationOutcomes.RefusalsAreJustified | archive/src-nodejs/core/api-key-rotation.ts:199-254 | every refusal of an issue, stage or adoption names a reason that holds |
| ApiKeyBackend.ClawNetApiKeyBackend.constructor | archive/src-nodejs/core/api-key-rotation.ts:191-195 | a new process keeps the tables and starts with no stages |
| ApiKeyBackend.ClawNetApiKeyBackend.IssueCredential | archive/src-nodejs/core/api-key-rotation.ts:199-238 | the tables and answer after an issue, also when the database refuses the first or the second INSERT |
| ApiKeyBackend.ClawNetApiKeyBackend.StageNextCredential | archive/src-nodejs/core/api-key-rotation.ts:240-283 | the tables, stage map and answer after a stage, the secret held in a buffer of its own; a refused INSERT changes nothing |
| ApiKeyBackend.ClawNetApiKeyBackend.CommitStagedRotation | archive/src-nodejs/core/api-key-rotation.ts:285-305 | the tables and stage map after a commit, encrypted from the buffer's content |
| ApiKeyBackend.ClawNetApiKeyBackend.AbortStagedRotation | archive/src-nodejs/core/api-key-rotation.ts:307-321 | the tables after an abort; the buffer is zeroed and no other stage's buffer is touched |
| ApiKeyBackend.ClawNetApiKeyBackend.RevokeCredential | archive/src-nodejs/core/api-key-rotation.ts:360-374 | the tables after a revocation |
| ApiKeyBackend.ClawNetApiKeyBackend.WipeIdentity | archive/src-nodejs/core/api-key-rotation.ts:382-398 | the tables after the discard transaction |
| ApiKeyBackend.ClawNetApiKeyBackend.DiscardIdentity | archive/src-nodejs/core/api-key-rotation.ts:376-399 | a discard that nothing overtakes is abort then wipe |
| ApiKeyBackend.ClawNetApiKeyBackend.AdoptPreVerifiedBearer | archive/src-nodejs/core/api-key-rotation.ts:437-618 | the tables and answer after an adoption; whichever INSERT is refused, all tables are as before |
| ApiKeyBackend.ClawNetApiKeyBackend.AdoptInTransaction | archive/src-nodejs/core/api-key-rotation.ts:490-599 | the transaction body: which rows it writes on success and which error it throws when |
| ApiKeyBackend.ClawNetApiKeyBackend.SignWithCredential | archive/src-nodejs/core/api-key-rotation.ts:325-334 | a signature under the row's own secret, or why not |
| ApiKeyBackend.ClawNetApiKeyBackend.VerifyWithCredential | archive/src-nodejs/core/api-key-rotation.ts:336-348 | verification against the row's public key unless missing or revoked |
| ApiKeyBackend.ClawNetApiKeyBackend.LookupByBearer | archive/src-nodejs/core/api-key-rotation.ts:629-637 | identity and expiry of a live, unexpired bearer, else nothing |
| ApiKeyBackend.ClawNetApiKeyBackend.GetCurrentCredentialId | archive/src-nodejs/core/api-key-rotation.ts:643-646 | the identity's current credential id, or none |
| Ledger.RunKeepsValid | archive/src-nodejs/routes/auth.ts:135-211 | over every interleaving balances stay non-negative, keys stay within their caps, and an account's keys together never spent more than the account used |
| Ledger.RunConservesCredits | archive/src-nodejs/routes/auth.ts:143-145 | credits fall and usage rises by exactly the accepted amounts billed to the account; accounts neither appear nor vanish |
| Ledger.RunRecordsSpend | archive/src-nodejs/routes/auth.ts:206-208 | a key's spend grows by exactly what was accepted through it; owner, cap and expiry are fixed |
| Ledger.RevokedKeyIsFrozen | archive/src-nodejs/routes/economy.ts:206-245 | a revoked key stays revoked and bills nothing in any continuation |
| Ledger.RevocationRevokes | archive/src-nodejs/routes/economy.ts:206-245 | a revocation is answered Ok exactly for an active root owning the key, touches that key alone, and from then on the key bills nothing and is refused as revoked |
| Ledger.RevokedIff | archive/src-nodejs/routes/economy.ts:218-232 | after a run a key is revoked exactly when it was before or its owner asked for it |
| Ledger.DelegatedAcceptedIff | archive/src-nodejs/routes/auth.ts:175-211 | from the history alone: when a delegated request is accepted, after any run |
| Ledger.RootAcceptedIff | archive/src-nodejs/routes/auth.ts:135-148 | the same for a root request |
| Ledger.KeyOfInactiveAccountIsRefused | archive/src-nodejs/routes/auth.ts:195-199 | a key of a missing or inactive account bills nothing in any run |
| Ledger.FreshKeyKeepsItsTerms | archive/src-nodejs/routes/economy.ts:45-83 | when a key is issued; it carries the owner, cap and expiry asked for, over every continuation |
| Ledger.RefusedRequestChangesNothing | archive/src-nodejs/routes/auth.ts:150-229 | a refused deduction moves nothing |
| Ledger.RefusalsAreJustified | archive/src-nodejs/routes/auth.ts:104-229 | every refusal names a reason that holds |
| Ledger.AcceptedAnswersNewBalance | archive/src-nodejs/routes/auth.ts:147-210 | the remaining balance answered is the charged account's new balance |
| Ledger.Round6IsNearest | archive/src-nodejs/routes/auth.ts:8-9 | rounding is within half a micro-credit and exact on whole ones |
| Ledger.PositiveRequestIsFreeIff | archive/src-nodejs/routes/auth.ts:118-125 | an accepted positive request, by root or delegation key, changes nothing exactly when it is below half a micro-credit |
| LedgerService.LedgerDb.Deduct | archive/src-nodejs/routes/auth.ts:104-229 | tables and answer of a deduction, with its input checks and key routing |
| LedgerService.LedgerDb.DeductRoot | archive/src-nodejs/routes/auth.ts:135-148 | the root transaction |
| LedgerService.LedgerDb.DeductDelegated | archive/src-nodejs/routes/auth.ts:175-211 | the delegation transaction: both rows move or neither |
| LedgerService.LedgerDb.IssueKey | archive/src-nodejs/routes/economy.ts:45-102 | tables and answer after issuing a delegation key |
| LedgerService.LedgerDb.RevokeKey | archive/src-nodejs/routes/economy.ts:206-245 | tables and answer after revoking one, ownership checked |
| MemoryCache.RunStaysWithinCapacity | archive/src-nodejs/cache/index.ts:29-35 | the size never exceeds the capacity in any run without empty keys |
| MemoryCache.SetOverflowsIff | archive/src-nodejs/cache/index.ts:30-33 | the one situation in which a set overflows the store |
| MemoryCache.GetKeepsLiveKeys | archive/src-nodejs/cache/index.ts:17-27 | a lookup keeps the key exactly when it is alive, as the most recent, and drops it when expired; no other key changes |
| MemoryCache.EvictedIsLeastRecentlyUsed | archive/src-nodejs/cache/index.ts:17-35 | a key evicted by capacity has seen at least maxItems - 1 other keys inserted or hit since its own last insertion or hit |
| MemoryCache.CacheRefinesTtlMap | archive/src-nodejs/cache/index.ts:17-35 | a value read is the last one set and unexpired; a live value is missing only if capacity evicted its key |
| MemoryCacheObject.Cache.Get | archive/src-nodejs/cache/index.ts:17-27 | order, entries and value after a get |
| MemoryCacheObject.Cache.Set | archive/src-nodejs/cache/index.ts:29-35 | order and entries after a set |
| TwoTierCache.StalenessBound | archive/src-nodejs/cache/index.ts:72-101 | in every interleaving, with other processes on the same Redis and restarts, a returned value was written for its key less than two TTLs plus two Redis delays ago |
| TwoTierCache.StalenessBoundIsSharp | archive/src-nodejs/cache/index.ts:77-82 | with no delay an age of 2 * TTL - 1 ms is reached |
| TwoTierCache.StepKeepsFreshIff | archive/src-nodejs/cache/index.ts:77-82 | a step takes memory off the key's newest value exactly when it is a refill with another value or another process setting one |
| TwoTierCache.AlwaysFreshIff | archive/src-nodejs/cache/index.ts:72-101 | memory has the newest value at every moment of a run exactly when the run holds no such step |
| TwoTierCache.ReturnsNewestIff | archive/src-nodejs/cache/index.ts:72-90 | before any such step a returned value is the last one set by any process, unless a stale refill returns it |
| TwoTierCache.SetIsReadBack | archive/src-nodejs/cache/index.ts:91-95 | a value set or refilled is returned by every lookup up to one TTL later, unless a newer entry, an eviction or a restart displaces it, whatever Redis does |
| TwoTierCache.RedisIsReadBack | archive/src-nodejs/cache/index.ts:72-90 | a value Redis accepted is returned to a lookup that finds memory empty, for one TTL, unless overwritten there or the read fails |
| TwoTierCache.WaitingRefillOverwritesNewerSet | archive/src-nodejs/cache/index.ts:77-82 | a refill that was waiting makes the next lookup return its older value over a newer set |
| RateLimit.SweepsAreUnobservable | archive/src-nodejs/middleware/rate-limit.ts:13-18 | sweeps inserted anywhere change no verdict |
| RateLimit.RateBound | archive/src-nodejs/middleware/rate-limit.ts:25-50 | at most 2 * limit - 1 requests of one address pass in any half-open minute, for both limiters |
| RateLimit.RateBoundIsSharp | archive/src-nodejs/routes/oauth.ts:232-242 | traffic that attains the bound, for every limit and both limiters |
| RateLimit.RefusedOnlyWhenBusy | archive/src-nodejs/middleware/rate-limit.ts:25-50 | whoever is refused made at least `limit` requests of its own in the 60000 ms before |
| RateLimit.TokenEndpointBounds | archive/src-nodejs/routes/oauth.ts:232-242 | at the token endpoint fewer than twenty pass in a minute and nobody with fewer than ten is refused |
| RateLimit.SweepKeepsRecentOnly | archive/src-nodejs/middleware/rate-limit.ts:13-18 | a sweep leaves entries only for addresses seen in the last 60000 ms |
| RateLimit.RequestLimiter.Handle | archive/src-nodejs/middleware/rate-limit.ts:25-50 | window and verdict of the closed-window limiter |
| RateLimit.RequestLimiter.Cleanup | archive/src-nodejs/middleware/rate-limit.ts:13-18 | the sweep removes exactly the windows that are over |
| RateLimit.TokenLimiter.Check | archive/src-nodejs/routes/oauth.ts:232-242 | window and verdict of the half-open limiter |
| Challenges.ConsumeAnswersOutstanding | archive/src-nodejs/core/webauthn.ts:39-53 | a consume answers from the history alone: the last challenge saved, not consumed since, not expired; sweeps are unobservable |
| Challenges.SweepKeepsRecentOnly | archive/src-nodejs/core/webauthn.ts:32-45 | after a save or sweep only challenges of the last five minutes are left |
| Challenges.ChallengeStore.CleanExpired | archive/src-nodejs/core/webauthn.ts:32-37 | the sweep removes exactly the expired challenges |
| Challenges.ChallengeStore.StoreChallenge | archive/src-nodejs/core/webauthn.ts:39-45 | the store after saving a challenge |
| Challenges.ChallengeStore.ConsumeChallenge | archive/src-nodejs/core/webauthn.ts:47-53 | store and answer after consuming one |
| Jwks.SingleFlight | crates/api/src/clerk.rs:305-329 | the flag is set exactly while one caller is critical, and fetches never overlap, with any number of callers |
| Jwks.FastPathIff | crates/api/src/clerk.rs:297-303 | over every run a check is answered at once exactly when unforced, with keys stored, within the TTL, and then with the list stored last |
| Jwks.FreshCacheSparesFetches | crates/api/src/clerk.rs:297-303 | within the TTL of a stored list no unforced caller starts a fetch |
| Jwks.AnswersComeFromFetches | crates/api/src/clerk.rs:291-339 | every list returned is that of one completed fetch; a fast-path list is unforced and its fetch was stored within the TTL; a waiter woken by a successful fetch reads it or a later one |
| Jwks.WaiterIgnoresFailure | crates/api/src/clerk.rs:329-338 | a waiter's answer is as recent as the fetch that woke it exactly when that succeeded or a later one filled the cache; else it is an older fetch's list |
| Jwks.StaleAnswerIsReachable | crates/api/src/clerk.rs:329-338 | for every TTL a run ends with a waiter answering Ok from an expired list after a failed fetch |
| Jwks.StrandedIff | crates/api/src/clerk.rs:329-338 | a waiter is left without a coming wake-up exactly when a loser parks after the winner notified, and until a later caller wins |
| Jwks.StrandedWaiterIsReachable | crates/api/src/clerk.rs:305-331 | such a run exists for every TTL and every outcome of the fetch |
| Pulse.ApprovedAndPublishedAtMostOnce | archive/src-nodejs/db/pulse.ts:80-156 | in every interleaving a draft is approved at most once, yields at most one post with its original fields, and its status is its last audited action |
| Pulse.StepIsAllowedIff | archive/src-nodejs/routes/pulse.ts:124-186 | read off the audit log: when each request goes through, and that it leaves exactly its own entry, else nothing |
| Pulse.OnlyOwnersAct | archive/src-nodejs/routes/pulse.ts:130-176 | in every interleaving the actor of every audit entry is the draft's own profile |
| Pulse.RefusalsAreJustified | archive/src-nodejs/routes/pulse.ts:130-176 | a refusal names the draft's actual status, or that it is not the caller's |
| Pulse.RunKeepsInv | archive/src-nodejs/routes/pulse.ts:124-186 | every audit trail is created, optionally approved and published, then only rejections; every post made by publishing comes from one draft and carries its fields |
| Pulse.PostHasOneDraft | archive/src-nodejs/db/pulse.ts:123-156 | in every interleaving a post made by publishing comes from exactly one draft and carries its fields |
| Pulse.RunKeepsContent | archive/src-nodejs/db/pulse.ts:86-94 | a draft's content never changes |
| Pulse.RejectedWithPostIff | archive/src-nodejs/routes/pulse.ts:158-160 | a step hides a public post exactly when it writes a rejection over a published draft; the draft then shows rejected for good |
| Pulse.PostIsHiddenIff | archive/src-nodejs/db/pulse.ts:100-121 | over every interleaving a post ends hidden exactly when some rejection was written while the draft was published |
| Pulse.PublishedStaysPublishedIff | archive/src-nodejs/routes/pulse.ts:144-186 | from an empty database a posted draft shows as published exactly when no rejection overwrote that, else as rejected |
| Pulse.LateRejectHidesPost | archive/src-nodejs/routes/pulse.ts:144-161 | a reject that checked early and writes late does that |
| PulseStore.PulseDb.CreateDraft | archive/src-nodejs/db/pulse.ts:29-57 | tables after creating a draft |
| PulseStore.PulseDb.ApproveDraft | archive/src-nodejs/routes/pulse.ts:124-140 | tables and answer of an approval |
| PulseStore.PulseDb.PublishDraft | archive/src-nodejs/routes/pulse.ts:165-186 | tables and answer of a publication |
| PulseStore.PulseDb.FinishReject | archive/src-nodejs/db/pulse.ts:100-121 | tables after the write half of a rejection, which does not look at the status |
| StreamParser.SplitInvertsJoin | cortex/src/lib/cortexApi.ts:261 | the lines of a text hold no newline and join back to it |
| StreamParser.LinesOfConcat | cortex/src/lib/cortexApi.ts:260-262 | appending a chunk completes lines of the carried-over tail only |
| StreamParser.TrimSplits | cortex/src/lib/cortexApi.ts:266 | trimming removes space at both ends and nothing else |
| StreamParser.EventOfIff | cortex/src/lib/cortexApi.ts:264-277 | exactly which lines carry an event, and which one |
| StreamParser.SentIsDelivered | cortex/src/lib/cortexApi.ts:252-278 | reading what a server wrote, one `data: ` line for each event, gives back exactly what it sent |
| StreamParser.CutIsAtFirstComplete | cortex/src/lib/cortexApi.ts:1973-1981 | the cut of a run keeps everything up to the first `run_complete`, or everything |
| StreamParser.StreamChat | cortex/src/lib/cortexApi.ts:252-278 | however the text is cut, the events delivered are those of the whole text split at once |
| StreamParser.StreamRun | cortex/src/lib/cortexApi.ts:1957-1985 | the same sequence, cut just after the first `run_complete` |
| StreamParser.DeliveryOnlyGrows | cortex/src/lib/cortexApi.ts:264-277 | what was delivered at any moment is a prefix of what the whole text delivers |
| Registry.RunKeepsValid | archive/src-nodejs/routes/authn.ts:106-129 | at most one active primary and one active recovery credential, and once a usable credential exists there always is one |
| Registry.SuccessGrantsRole | archive/src-nodejs/routes/authn.ts:212-271 | a successful register or promote grants the role, alone where it is exclusive; a revoke takes just one credential out |
| Registry.SucceedsIff | archive/src-nodejs/routes/authn.ts:106-271 | when registering, promoting and revoking succeed, the last usable credential excepted |
| Registry.OthersOnlyStepDown | archive/src-nodejs/routes/authn.ts:106-129 | every other credential keeps its row, except for stepping down from the exclusive role taken |
| Registry.RefusalsAreJustified | archive/src-nodejs/routes/authn.ts:212-271 | every refusal names a reason that holds |
| Registry.FailedRegistrationChangesNothingIff | archive/src-nodejs/routes/authn.ts:107-129 | a registration whose INSERT fails for any reason leaves the table alone exactly when there was nothing to step down |
| Registry.RegistryDb.RegisterVerify | archive/src-nodejs/routes/authn.ts:106-131 | table and answer of a registration, step-downs first, the INSERT refused or not |
| Registry.RegistryDb.PromoteHandler | archive/src-nodejs/db/index.ts:156-163 | table and answer of a promotion |
| Registry.RegistryDb.RevokeHandler | archive/src-nodejs/routes/authn.ts:243-271 | table and answer of a revocation, the last usable credential kept |
| TeamGroup.CreateTeamGroup | cortex/src/lib/groups.ts:111-140 | ends for every group list; the id is unused and the first free one tried; the name is unused exactly when a letter is free |
| TeamGroup.AheadShrinks | cortex/src/lib/groups.ts:124-130 | each taken numbered id leaves the set the search can still run into |
| TeamGroup.DecimalIsDecimal | cortex/src/lib/groups.ts:128 | the counter in an id is its decimal numeral, without leading zeros |
| TailOf.Tail | crates/api/src/check_runner.rs:393-402 | the output whole, or the marker and what is kept of it |
| TailOf.KeptIsWholeCharacters | crates/api/src/check_runner.rs:392-402 | what is kept is the encoding of the last characters, at most `limit` octets and at most three fewer |
| TailOf.ScalarRoundTrip | crates/api/src/check_runner.rs:393-402 | every character reads back from its shortest encoding (section 3 of RFC 3629) |
| TailOf.Utf8IsInjective | crates/api/src/check_runner.rs:393-402 | different texts have different encodings, so what is kept determines the characters kept |

## Left out

- HTTP routing, headers, audit logging of the account tables, Clerk, Stripe and container calls: plumbing around the state changes.
- Real cryptography and the `soma-heart` rotation controller: unseen library code, replaced by parameters with the laws used.
- Zeroing of the fresh key pair when an adoption throws: the buffers are local and unreachable afterwards.
- UTF-16 code units: text is a sequence of characters, so surrogate halves do not occur.
- Base64 text outside the encoder's own output: the decoder reads URL-safe digits and skips other characters and padding, and no other leniency is modelled.
- Top-ups and deactivation of accounts: between the modelled requests an account's activity and its credits and usage together do not change.
- Ledger.Round6: amounts are reals and balances whole micro-credits, so binary floating-point drift is not modelled.
- Jwks.StrandedIff: a caller cancelled or panicking while it holds the flag is not modelled, which would strand waiters for good.
- TwoTierCache.StalenessBound: the processes sharing Redis are taken to share one clock.
- TwoTierCache.StalenessBound: a Redis delay is a parameter, because the code sets no timeout on the exchange.
- Pulse.RunKeepsInv: posts written directly, not by publishing a draft, share the table (archive/src-nodejs/db/social.ts:297) and are not modelled.
- Reconnection in the stream readers: each attempt starts a new buffer and may deliver events again.
- Exceptions thrown by the readers' event callback, which the code swallows.
- Request-body validation of register, promote and revoke: the model starts from well-formed fields.
- The signing-ceremony routes, OAuth code exchange, `mergeWithDefaultGroups`, feed and search queries: easy members or stubs.
