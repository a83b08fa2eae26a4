# Verified model of secret-letter

A Dafny model of the logic that secret-letter rests on: opening a secret exactly once over
Redis, reveal sessions, the fixed-window rate limiter, the base64url and UTF-8 helpers that
browser and server share, request validation, and the search for a page's initial assets.
`dafny verify dfyconfig.toml` checks everything.

## How it is built

- `SecretTypes`, `OpenScripts`: the records, and the claim, finalize and abort scripts as
  functions on the two keys of one secret.
- `RedisService`: the same scripts and the service calls step by step, as methods of a class
  whose fields are the stored keys. Each script method is proved equal to its function, and
  leaves all other keys alone (`RedisKeys` shows that keys of different kinds or tokens never
  meet), so the life of one secret can be studied by itself.
- `OpenProtocol`: that life as a state machine. Any number of `ConsumeSecret` and
  `GetSecretStatus` calls run side by side. Every clock sample, request, reply and decision is
  a step of its own. A request that was sent may be run at any later time and any number of
  times, and a reply may be lost, so crashes, timeouts, retries and stragglers are all runs.
  TTLs run out by the clock; dropping an expired key is a separate step.
- `OpenInvariant`: the inductive invariant. `OneShotBox`: the machine refines an atomic box
  (available, then opened or lapsed, once). `OpenSafety` and `OpenLiveness`: what follows.
  `OpenAnswers`: what each result of an open call means. `Lifetimes`: how long secrets and marks
  last, in the requested seconds. `LateOverwrite`: the one mark that a late status write can
  hide, and exactly when.
- `RevealSessions`: sessions as a layer over that machine. An open request that names a session
  starts its call only once the session has passed; one that names none starts it at once.
- `RateLimit`, `Base64`, `CryptoCodec`, `Utf8Clamp`, `AtRestKeys`, `Tokens`, `Validation`,
  `SizeBudget`, `InitialAssets`: one module a component.

## Assumptions

- API and Redis share one clock, read in whole milliseconds. Whole-second samples are floors.
- Redis runs a script, and the transaction that creates a secret, atomically; it evicts nothing
  but expired keys. A key still answers at its very expiry instant and is gone a millisecond later.
- The creation transaction runs once, within the five seconds its call may take.
- Claim ids, session ids and tokens are fresh, and the token hash is injective. They are
  parameters; freshness is a guard of the step that introduces them.
- Encryption at rest is ideal: an envelope opens under its own key and no other.
- A status call sends no write once its five seconds are over. Only `LateOverwrite` uses this, as an
  explicit hypothesis; every other result holds for calls of any length.

## What the proofs found

- At most one delivery, no loss before expiry, and no revival hold in every run.
- Metadata that says "consumed" can be overwritten with "expired" by a status call that read
  "active" shortly before the open and writes after it. `docs/product-spec/secret-letter-architecture.md:223`
  says later opens see consumed metadata. With every call inside its five seconds the code breaks that
  if and only if the secret is opened no more than five seconds before its expiry second
  (`HiddenExactlyNearExpiry`). Opened earlier it reads "consumed" for the whole retention
  (`ConsumedUntilOverwritten`); for every instant from there to the last at which an open can
  succeed, `LateWriteHidesConsumption` gives the run.
- A claim retried under its own live lease is refused as "consumed" (`OwnRetryIsRefused`): a
  lost claim reply costs the caller the 30 s of the lease.
- Waiting exactly `RetryAfter` seconds ends the rate-limit window if and only if the TTL is not
  a whole number of seconds (`RetryAfterEndsWindow`). A refusal at the expiry instant itself says 0.
- Twice the limit is never reached in a sliding window: the bound is one less, and it is met.
- The server accepts nonces with line breaks between their 16 digits, when these leave the
  length at 0 or 1 modulo 4 (`NonceLengthIsText`); the comment on the nonce rule says 16 characters.
- Decoding the encoding of no bytes is an error, since the decoder refuses the empty text.

## Model

| member | source | states |
|---|---|---|
| `RedisService.Redis.ClaimOpenSecret` | backend/internal/secret/redis_service.go:40-99 | the claim script, line by line, computes the claim function on its two keys and changes no other key |
| `RedisService.Redis.FinalizeOpenSecret` | backend/internal/secret/redis_service.go:101-149 | the same for finalize |
| `RedisService.Redis.AbortOpenSecret` | backend/internal/secret/redis_service.go:151-179 | the same for abort |
| `RedisService.Redis.CreateSecret` | backend/internal/secret/redis_service.go:213-283 | creation stores both records field by field, the payload for the requested seconds and the metadata for seven days more, exactly when those seconds are positive, and otherwise nothing |
| `RedisService.Redis.GetSecretStatus` | backend/internal/secret/redis_service.go:305-341 | an undisturbed status call marks an active secret past its second expired and empties it, and otherwise changes nothing; an invalid token is refused |
| `RedisService.Redis.ConsumeSecret` | backend/internal/secret/redis_service.go:344-428 | an undisturbed open succeeds exactly on an openable secret under the sealing key, returns what was sealed, burns the payload and counts the view; a wrong key leaves the secret active; every refusal has its exact condition |
| `RedisService.Redis.CreateRevealSession` | backend/internal/secret/reveal_session.go:28-87 | an active session that ends in 900 s is stored for the token's hash exactly when the status read says active; every refusal has its exact condition and stores none |
| `RedisService.Redis.ValidateRevealSession` | backend/internal/secret/reveal_session.go:89-121 | passes exactly a live active session of this token before its last second, deletes exactly an expired one of this token, and touches no secret; each refusal has its own error |
| `RedisService.Redis.CreateThenValidate` | backend/internal/secret/reveal_session.go:28-121 | a created session passes for its token exactly while its record is stored, 900 000 ms, and before the second it names; otherwise the check says not found or expired |
| `RedisService.Redis.OtherSecretsUntouched` | backend/internal/secret/redis_service.go:711-717 | a call for one token leaves every other token's secret as it was |
| `RedisKeys.KeyspacesDisjoint` | backend/internal/secret/redis_service.go:711-717 | every key builder is injective and no two of them ever build the same key |
| `OpenInvariant.StepInv` | backend/internal/secret/redis_service.go:305-490 | every step of every process keeps the invariant of keys, leases, calls, readers and log |
| `OpenInvariant.RunInv` | backend/internal/secret/redis_service.go:213-490 | the invariant holds in every state of every run |
| `OpenInvariant.ClaimSlot` | backend/internal/secret/redis_service.go:52-98 | a claim keeps the two keys consistent, never reopens a closed secret, and grants only the sealed payload |
| `OpenInvariant.ClaimRespects` | backend/internal/secret/redis_service.go:64-73 | a claim takes over only from a lease that has run out on the clock |
| `OpenInvariant.FinalizeSlot` | backend/internal/secret/redis_service.go:125-148 | finalize opens only for the holder of a secret that is not closed and within its payload's life, and conflicts only when another claim or none holds it |
| `OpenInvariant.AbortSlot` | backend/internal/secret/redis_service.go:162-178 | abort keeps the keys consistent and releases only its own claim |
| `OpenScripts.OddRecords` | backend/internal/secret/redis_service.go:60-73 | a deleted record is answered like a missing one, and a claim without an end, or past it, is open to the next |
| `OneShotBox.StepRefinesBox` | backend/internal/secret/redis_service.go:40-179 | every step is a step of the one-shot box with the same visible answer; a lease refusal is "busy" and leaves the box as it is |
| `OneShotBox.RunRefinesBox` | backend/internal/secret/redis_service.go:305-428 | every run, with all its interleavings, losses and repetitions, is a run of the box |
| `OneShotBox.BoxDeliversOnce` | backend/internal/secret/redis_service.go:343 | the box delivers at most once and never after it said consumed, expired or not found |
| `OpenAnswers.EveryResultIsTold` | backend/internal/secret/redis_service.go:378-490 | every result a call returns, by its error, comes from the one script run, abort or break-off that the code maps to it |
| `OpenAnswers.ReturnedNotFound` | backend/internal/secret/redis_service.go:423-424 | a call that returned not found ran a script while the payload was unreadable, and it is unreadable in every later state |
| `OpenAnswers.ReturnedExpired` | backend/internal/secret/redis_service.go:421-422 | after the script run that a returned expired comes from the secret is never available again; it found metadata, and not consumed one |
| `OpenAnswers.ReturnedConsumed` | backend/internal/secret/redis_service.go:419-420 | a call that returned consumed ran after the open, or ran its claim under a stored lease later than its sampled second |
| `OpenAnswers.NeverRefusedEarly` | backend/internal/secret/redis_service.go:419-424 | before the promised second, in requested seconds, no call has returned expired or not found for an unopened secret |
| `Lifetimes.CreatedLastsAsAsked` | backend/internal/secret/redis_service.go:226-272 | payload, metadata, expiry second and TTLs of a creation in the seconds that the request holds |
| `Lifetimes.OpensWithinLifetime` | backend/internal/secret/redis_service.go:227-272 | over every run: readable and available up to the promised second, unreadable five seconds past it, and no open later than that |
| `Lifetimes.ExpiredMarkLasts` | backend/internal/secret/redis_service.go:75-91 | a script that marks the secret leaves no readable payload, and for exactly 604 800 000 ms every script and read finds just the mark |
| `Lifetimes.MarkIsKept` | backend/internal/secret/redis_service.go:75-178 | over every run, for seven days from the mark the metadata reads expired, and no open call and no status call has been told not found |
| `OpenSafety.DeliversAtMostOnce` | backend/internal/secret/redis_service.go:125-148 | over every run at most one finalize opens the secret, and no claim is granted after it |
| `OpenSafety.ReturnsTheSecretOnce` | backend/internal/secret/redis_service.go:388-408 | at most one call returns the secret; it held the sealing key, ciphertext, nonce, algorithm and content are those of the creation request, and the time is the second it sampled to finalize |
| `OpenSafety.OpensBeforeItsEnd` | backend/internal/secret/redis_service.go:227-271 | no open later than the payload's TTL, at most five seconds past the promised expiry |
| `OpenSafety.NoLossBeforeExpiry` | backend/internal/secret/redis_service.go:75-91 | before its second and unopened, the payload is readable and the metadata active or opening |
| `OpenSafety.NoEarlyRefusal` | backend/internal/secret/redis_service.go:129-135 | before that second no script says expired, not found or, leases aside, consumed |
| `OpenSafety.TerminalAbsorbs` | backend/internal/secret/redis_service.go:52-62 | once the metadata reads consumed, expired or nothing at all, timed out but not yet dropped included, it never reads active or opening again, late status writes included |
| `OpenSafety.NothingOpensTerminal` | backend/internal/secret/redis_service.go:113-127 | from a terminal state on no claim is granted and no finalize succeeds |
| `OpenSafety.ShutForGood` | backend/internal/secret/redis_service.go:52-91 | once the box is opened or lapsed, by TTL or by mark, it stays so and grants nothing |
| `OpenSafety.ExpiredAnswerIsFinal` | backend/internal/secret/redis_service.go:326-332 | no open ever follows an "expired" answer of any script or status call |
| `LateOverwrite.ConsumedUntilOverwritten` | backend/internal/secret/redis_service.go:306-331 | opened more than five seconds before its expiry second, a secret reads consumed to status and open calls for exactly the retention, over every run in which no status call writes past its deadline |
| `LateOverwrite.LateWriteHidesConsumption` | backend/internal/secret/redis_service.go:314-331 | for every instant from five seconds before the expiry second to the last at which an in-time call can open, an explicit run with every call inside its deadline opens then and ends marked expired |
| `LateOverwrite.HiddenExactlyNearExpiry` | backend/internal/secret/redis_service.go:305-331 | of a secret opened at an instant by in-time calls, the consumed mark can be hidden by in-time calls if and only if that instant is no more than five seconds before the expiry second |
| `OpenSafety.NoConflictWithinLease` | backend/internal/secret/redis_service.go:125-127 | finalize says conflict only more than 29 s after its call started |
| `OpenSafety.NeverSupersededInTime` | backend/internal/secret/redis_service.go:345-362 | a call within its five seconds is never told that another claim took over |
| `OpenSafety.OwnRetryIsRefused` | backend/internal/secret/redis_service.go:64-68 | a granted claim run again under its own live lease answers consumed and changes nothing |
| `OpenSafety.MetadataOutlivesPayload` | backend/internal/secret/redis_service.go:269-272 | in every state a readable payload has readable metadata with a later expiry |
| `OpenSafety.NotFoundMeansGone` | backend/internal/secret/redis_service.go:41-44 | a script says not found only when the payload is gone, and it stays gone |
| `OpenSafety.EmptiedForGood` | backend/internal/secret/redis_service.go:146-147 | what a finalize or a status call's delete has emptied is never filled again |
| `OpenSafety.SentMayRun` | backend/internal/secret/redis_service.go:359-362 | a request that was sent may be run at any later time of any run, whatever its call has come to |
| `OpenSafety.StatusTellsTheTruth` | backend/internal/secret/redis_service.go:314-340 | a status answer is true of the box at the instant of its GET, an expired one for good; after a not found answer's GET the payload is unreadable in every state |
| `OpenLiveness.AbortUndoesClaim` | backend/internal/secret/redis_service.go:162-178 | claim, any number of refused intrusions, abort: metadata, payload and both TTLs are restored, a stale claim normalised to active |
| `OpenLiveness.IntrusionsLeave` | backend/internal/secret/redis_service.go:64-68 | claims within the lease and finalizes or aborts of others leave a held secret unchanged |
| `OpenLiveness.ClaimGranted` | backend/internal/secret/redis_service.go:93-98 | an undisturbed claim, at any pace, on a fresh secret without a live lease at its clock sample is granted and changes only the claim fields |
| `OpenLiveness.FinalizeDelivers` | backend/internal/secret/redis_service.go:137-148 | a holder that finalizes while the payload lasts burns it at that instant and returns the secret |
| `OpenLiveness.FreshSecretOpens` | backend/internal/secret/redis_service.go:343-428 | from every reachable unexpired state without a live lease, the next undisturbed call with the right key returns the secret, with any delay before each of its steps that keeps the finalize within the payload's life |
| `OpenLiveness.LeaseRunsOut` | backend/internal/secret/redis_service.go:358-362 | thirty seconds after any state no lease is live |
| `OpenLiveness.EveryRunRecovers` | backend/internal/secret/redis_service.go:64-73 | wherever a run has got to, waiting 30 s or more and then one undisturbed call, step by step, returns an unopened secret, if its second has not come at that call's clock sample |
| `OpenLiveness.HeldThroughOthers` | backend/internal/secret/redis_service.go:64-166 | whatever steps other calls take, a granted call keeps its claim and the secret both its keys unchanged, until the lease or the secret's second ends |
| `OpenLiveness.OpensDespiteOthers` | backend/internal/secret/redis_service.go:378-428 | a granted call with the right key returns the secret whatever others do between claim, decryption and finalize, within its lease and before the second |
| `OpenLiveness.WrongKeyReleases` | backend/internal/secret/redis_service.go:388-392 | a server with the wrong key burns nothing and leaves the secret at once claimable, whatever others do between claim, decryption and abort |
| `OpenLiveness.AbortGoesByItsSample` | backend/internal/secret/redis_service.go:168-177 | an abort restores the active record or marks it expired by the second its call sampled, however late it runs |
| `RevealSessions.PassedSessionIsGenuine` | backend/internal/secret/reveal_session.go:102-120 | a session that passes was issued for that token hash less than 15 minutes before, by a call whose status read saw the secret available |
| `RevealSessions.IssuedSessionPasses` | backend/internal/secret/reveal_session.go:62-120 | over every run an issued session, read within 900 000 ms of a store and judged before its last second, passes, whatever happens in between |
| `RevealSessions.RefusalsMean` | backend/internal/secret/reveal_session.go:102-118 | an unknown session was not stored when it was read, a wrong one is another token's, an expired one had its 900 s, and no refused request starts an open |
| `RevealSessions.RoutedOpenIsGenuine` | backend/internal/httpapi/handlers.go:226-247 | an open request that names a session starts an open call only after that session passed, only a genuine one does, and no call is started by two requests |
| `RevealSessions.SessionsAreInvisible` | backend/internal/httpapi/handlers.go:226-247 | seen from the secret a run with sessions is a run of the open protocol, in which a call started through a session begins like any other |
| `RevealSessions.OnceThroughSessions` | backend/internal/httpapi/handlers.go:226-247 | of all requests, with and without sessions, at most one is given the secret; if through a session, that session is genuine and no other check led to the secret |
| `RateLimit.Limiter.AllowScript` | backend/internal/ratelimit/limiter.go:32-45 | the script counts the hit, opens or keeps the window, repairs a missing expiry and reports count and TTL |
| `RateLimit.Limiter.Allow` | backend/internal/ratelimit/limiter.go:55-109 | allowed exactly up to the limit, remaining plus count is the limit, no other bucket changes, the reset is not before the window's end |
| `RateLimit.Limiter.Reset` | backend/internal/ratelimit/limiter.go:123-126 | deletes the one bucket |
| `RateLimit.WindowIsItsDuration` | backend/internal/ratelimit/limiter.go:63-66 | the window is its duration in whole milliseconds, and at least one |
| `RateLimit.WindowLasts` | backend/internal/ratelimit/limiter.go:33-42 | a first hit, and a hit on a counter left without expiry, end the window exactly one window later |
| `RateLimit.SlidingBound` | backend/internal/ratelimit/limiter.go:32-45 | over every trace an interval as long as the window, ends included, has at most twice the limit less one allowed requests |
| `RateLimit.SlidingBoundIsTight` | backend/internal/ratelimit/limiter.go:32-45 | for every window and limit a trace meets that bound |
| `RateLimit.FirstLimitAllowed` | backend/internal/ratelimit/limiter.go:94-98 | of the requests of one window exactly the first limit are allowed, and remaining plus allowed is always the limit |
| `RateLimit.RetryAfterEndsWindow` | backend/internal/ratelimit/limiter.go:88-105 | waiting RetryAfter ends the window if and only if the TTL is not whole seconds; a second less never does, a millisecond more always |
| `RateLimit.RetriedRequest` | backend/internal/ratelimit/limiter.go:94-105 | the retry after that wait is allowed exactly under the same condition |
| `RateLimit.BucketsApart` | backend/internal/httpapi/middleware.go:155 | different endpoints or addresses never share a bucket |
| `CryptoCodec.DecodeBase64Url` | frontend/web-app/src/lib/crypto.ts:123-153 | throws exactly when the guard refuses the trimmed text; past it atob never fails and floor(3 n / 4) bytes come out |
| `CryptoCodec.AtobReads` | frontend/web-app/src/lib/crypto.ts:129-145 | translated and padded, every accepted text is read in full, so the catch is unreachable |
| `CryptoCodec.EncodersAgree` | frontend/web-app/src/lib/crypto.ts:109-118 | the replace chain over btoa writes the unpadded URL alphabet of section 5 of RFC 4648 |
| `CryptoCodec.RoundTrip` | frontend/web-app/src/lib/crypto.ts:109-153 | decode after encode is the identity on every non-empty byte string and an error on the empty one |
| `CryptoCodec.NormalForm` | frontend/web-app/src/lib/crypto.ts:109-153 | encode after decode is an idempotent normal form with the same bytes, and the text itself exactly when its left-over bits are zero |
| `CryptoCodec.GoReadsBrowser` | backend/internal/secret/redis_service.go:719-725 | Go's raw decoder reads what the browser encodes, and the other way round |
| `CryptoCodec.KeyFragments` | frontend/web-app/src/lib/crypto.ts:166-170 | a fragment imports exactly when it is 43 URL digits, and every exported key does |
| `CryptoCodec.TrimLaw` | frontend/web-app/src/lib/crypto.ts:124 | trimming takes white space off both ends and nothing else |
| `Base64.GroupBits` | frontend/web-app/src/lib/crypto.ts:111 | each group of digits is the number its bytes are, as section 4 of RFC 4648 defines btoa's text |
| `Base64.DigitsAreTheTable` | frontend/web-app/src/lib/crypto.ts:111-117 | digits are written and read by the tables of sections 4 and 5 of RFC 4648 |
| `Utf8Clamp.GetUtf8ByteLength` | frontend/web-app/src/lib/utf8.ts:23-31 | counts exactly the bytes that TextEncoder writes, lone surrogates included |
| `Utf8Clamp.ClampUtf8Text` | frontend/web-app/src/lib/utf8.ts:33-64 | keeps the longest prefix of whole characters that fits; the byte count is the encoded length; truncated exactly when text was dropped |
| `Utf8Clamp.LongestFitLaws` | frontend/web-app/src/lib/utf8.ts:33-64 | that prefix is unique, never ends inside a surrogate pair, is everything that fits, and clamping it again changes nothing |
| `Utf8Clamp.CodePointBytes` | frontend/web-app/src/lib/utf8.ts:1-15 | the length table agrees with the encoding of every code point |
| `Utf8Clamp.OctetsCarryCodePoint` | frontend/web-app/src/lib/crypto.ts:65-66 | the octets of the encoding carry the code point, in the fewest octets, as section 3 of RFC 3629 lays it out |
| `Utf8Clamp.CharacterLaw` | frontend/web-app/src/lib/utf8.ts:26-28 | a text's characters: each surrogate pair is the one code point it stands for, any other unit itself |
| `Utf8Clamp.PairIsOneCharacter` | frontend/web-app/src/lib/utf8.ts:26-28 | every pair is one character of four bytes that carry its code point |
| `AtRestKeys.RecoversEveryKey` | backend/internal/secret/redis_service.go:623-638 | every 32-byte key is recovered from its base64url, hex and raw forms |
| `AtRestKeys.RecoversEitherCase` | backend/internal/secret/redis_service.go:623-638 | a key is recovered from every hexadecimal spelling, in lower, upper or mixed case |
| `AtRestKeys.ParseIsUnambiguous` | backend/internal/secret/redis_service.go:623-638 | parsing returns a key exactly when one of the three readings is that key |
| `AtRestKeys.ReadingsExclude` | backend/internal/secret/redis_service.go:625-635 | by length at most one reading of a value is a 32-byte key |
| `Tokens.GeneratedTokenIsValid` | backend/internal/secret/redis_service.go:640-709 | every generated token passes the token check |
| `Tokens.TokensAreUrlText` | backend/internal/secret/redis_service.go:692-709 | a token is 16 to 200 characters of the URL alphabet |
| `Validation.ValidateCreateSecretRequest` | backend/internal/secret/validation.go:48-145 | reports every defect in order, and none exactly for requests acceptable by their text |
| `Validation.CodesMean` | backend/internal/secret/validation.go:52-131 | which values of a request give which code |
| `Validation.ReportedInOrder` | backend/internal/secret/validation.go:48-138 | the report lists the codes in the order of the checks, each at most once |
| `Validation.NonceLengthIsText` | backend/internal/secret/validation.go:113-136 | a nonce decodes to 12 bytes exactly when it is 16 URL digits, up to line breaks that keep the length at 0 or 1 modulo 4 |
| `Validation.AcceptedLifetime` | backend/internal/secret/validation.go:147-153 | every accepted request lives one hour, one day or seven days, so creation never fails for its TTL |
| `SizeBudget.ServerReadsForm` | backend/internal/secret/validation.go:182-193 | the server decodes exactly the bytes that the browser encoded |
| `SizeBudget.FormRequestAccepted` | backend/internal/secret/validation.go:95-137 | with a 12-byte nonce and an offered TTL the request is accepted exactly for 1 to 11520 bytes of ciphertext |
| `SizeBudget.ClampedTextIsAccepted` | frontend/web-app/src/components/CreateSecretForm.tsx:105-136 | any clamped text, sealed with a 16-byte tag, passes validation and fits the body limit |
| `InitialAssets.Collector.Visit` | frontend/web-app/scripts/perf-audit.mjs:128-150 | the search ends on every manifest; what it newly visits is reached from its key and has its imports visited |
| `InitialAssets.CollectInitialAssets` | frontend/web-app/scripts/perf-audit.mjs:123-164 | exactly the .js files and style sheets of keys reachable by static imports from the entry or its dynamic imports outside the pages, each once |
| `InitialAssets.CollectedByText` | frontend/web-app/scripts/perf-audit.mjs:138-160 | which files and dynamic imports count, by their texts |
| `InitialAssets.VisitedIsReachable` | frontend/web-app/scripts/perf-audit.mjs:147-158 | a closed visited set holding the roots is exactly what they reach |

## Left out

- HTTP routing, CORS, headers, logging, metrics and the mapping of errors to status codes.
- The Redis client and the network, beyond lost replies and late or repeated requests; a repeated creation transaction.
- AES-GCM, SHA-256, random bytes and the at-rest nonce: they enter as the assumptions above.
- JSON and cjson encoding: records are typed. The two opening fields exist only in the scripts' view, and the Go struct drops them on a status call's rewrite. Formatted times beside their Unix seconds are not modelled.
- Floating point in RetryAfter: rounding up is exact for durations of whole milliseconds.
- Scripts that fail on malformed stored records, and integer overflow of counters and TTLs.
- RedisService.Redis.CreateRevealSession: an undisturbed call; interleaved sessions are `RevealSessions`, where a store may repeat and come late.
- RedisService.Redis.ConsumeSecret: an undisturbed call; interleaved ones are `OpenProtocol`.
- OpenProtocol and RevealSessions are on values, one secret at a time; the class methods tie the scripts to them and `OtherSecretsUntouched` and `KeyspacesDisjoint` tie one secret to the store.
- Object lookups that fall through to JavaScript prototypes (a manifest key such as "constructor"), and manifest lists with elements that are not strings outside dynamicImports.
- `findEntryKey` and the rest of the performance audit, pages, animations and hooks, config loading, proxy and IP parsing, deployment scripts.
- Status messages, `InMemoryService`, `RedisStore` and health checks: single branches or wrappers.
