# Reward-claim pipeline of bubcoco/webgame, in Dafny

The site lets a player turn a game score into reward tokens. This project
models that pipeline and proves properties of it:

- **Score validators.** There are three `validateScore` functions: the EVM claim route, the Solana claim route and the mint-tokens route. There are also the zod request schemas of `src/lib/validators.ts`, written as predicates over a parsed JSON value.
- **Rate limiters.**
  - The in-memory fixed-window limiter. Both claim routes carry an identical copy of it, modelled once as the class `FixedWindow.Limiter` over a `map<string, Window>`.
  - The Redis-backed `checkRateLimit`. It is modelled as a `RedisStore` class whose `GET`, `INCR`, `EXPIRE` and `TTL` act on a key → (count, expiry) map.
- **Route handlers.** These are the GET and POST handlers of the EVM claim route, the POST of the Solana claim route, and the POST and GET of the mint-tokens route. Each one is a function giving (response, foreign calls in order, new limiter table or session set), plus a method that runs it against the live object. Contract, provider, signer and `req.json()` outcomes are parameters of type `Js.Reply<T>`.
- **On-chain Anchor program.** This covers `initialize_game`, `claim_reward` and `add_admin` over a ledger: configuration, claim records keyed by session id, supply and balances. The class `GameRewards.Program` updates its fields in place. Every instruction is proved equal to its specification function, and an invariant is proved preserved.
- **Browser-side clients.**
  - The Solana client: the XOR-fold session id over a `bv8` array, the score guards and the explorer link.
  - The two EVM claim paths: via the backend and direct. The model covers their guards, the `setIsClaiming` toggling (as a log of effects on a `Browser` object) and the substring-priority error classification.
- **Middleware gate.** The `/api/claim` gate of `src/middleware.ts`.
- **Coin generators.** These place coins in `src/lib/gameUtils.ts`. They are rejection-sampling loops over supplied random samples.

Modules follow the source files:

| module | source file |
|---|---|
| `Wrappers`, `Js`, `Issuer`, `Text` | shared helpers: Option/Result, JavaScript truthiness and exceptions, decimal text, `parseInt`, substrings, UTF-8 |
| `FixedWindow` | `src/app/api/route/claim.ts`, `src/app/api/solana-claim/route.ts` |
| `ClaimRoute` | `src/app/api/route/claim.ts` |
| `SolanaClaimRoute` | `src/app/api/solana-claim/route.ts` |
| `MintTokensRoute` | `src/app/api/mint-tokens/route.ts` |
| `RedisRateLimit` | `src/lib/rateLimit.ts` |
| `Validators` | `src/lib/validators.ts` |
| `GameRewards` | `solana-programs/game-rewards/programs/game-rewards/src/lib.rs` |
| `ClaimSolana` | `src/lib/contracts/claimSolana.ts` |
| `ClaimTokenBackend` | `src/lib/contracts/claimTokenBackend.ts` |
| `Middleware` | `src/middleware.ts` |
| `GameUtils` | `src/lib/gameUtils.ts` |

Behaviours of the code the model keeps, where a reader might expect otherwise:

- **New rate-limit window.** A new window does not start at zero. It starts with the opening call already counted, at 1 (`FixedWindow.StepStartsWindow`).
- **Rejections and quota.** Not every rejection is free. In both claim routes the freshness check runs after the limiter, so a stale claim costs one unit (`ClaimRoute.PostExpiredCostsQuota`, `SolanaClaimRoute.ExpiredCostsQuota`). So do a claim the contract reports as claimed and a GET whose timestamp cannot be packed (`ClaimRoute.GetUnpackableTimestamp`).
- **Retry-After.** Only the EVM GET's 429 carries `Retry-After` and the rate-limit headers. The POST's 429 has no headers.
- **Session id collisions.** The Solana client's session id is an XOR fold, not a hash: inputs that swap bytes 32 apart collide (`ClaimSolana.SwapKeepsSessionId`).
- **Reward conversion.** The EVM and Solana claim routes and the on-chain program give one token per 100 points. The mint-tokens route mints the raw score (`MintTokensRoute.PostMintsScore`).
- **Unchecked mint-tokens fields.** That route never checks that `score` and `sessionId` are present. A body without them passes every local check and fails only when ethers cannot encode the contract call (`MintTokensRoute.PostMissingScore`, `MintTokensRoute.PostMissingSessionId`).
- **Duplicate sessions on chain.** The program's `is_claimed` check can never fail. The `init` constraint on the claim record refuses a reused session first ("account already in use") (`GameRewards.ClaimOncePerSession`).

## Model

| member | source | states |
|---|---|---|
| FixedWindow.Limiter.constructor | src/app/api/route/claim.ts:18 | the limiter starts with an empty table, which satisfies the ceiling invariant |
| FixedWindow.Limiter.Check | src/app/api/route/claim.ts:25-44 | one call updates the table in place exactly as the one-step specification says, and keeps every window at 1..10 counted calls |
| FixedWindow.StepStartsWindow | src/app/api/route/claim.ts:29-35 | a missing or expired record becomes a one-call window ending 3600000 ms from now; the call is allowed with 9 remaining |
| FixedWindow.StepFullWindow | src/app/api/route/claim.ts:38-40 | inside the window with 10 or more counted, the call is refused with 0 remaining and the table is unchanged |
| FixedWindow.StepCounts | src/app/api/route/claim.ts:42-43 | otherwise the count goes up by one, the window end stays, and remaining is 10 minus the new count |
| FixedWindow.StepAtResetTime | src/app/api/route/claim.ts:29 | the reset test is strict: a call at exactly resetTime still belongs to the full old window and is refused |
| FixedWindow.StepFrame | src/app/api/route/claim.ts:25-44 | a call adds no address but its own, drops none, and leaves every other address's record unchanged |
| FixedWindow.StepKeepsCeiling | src/app/api/solana-claim/route.ts:12-27 | the ceiling invariant (every window counts 1..10) is preserved, and remaining always lies in 0..9 |
| FixedWindow.RunAppend | src/app/api/route/claim.ts:25-44 | running two series of calls in turn equals running their concatenation |
| FixedWindow.RunInsideWindow | src/app/api/route/claim.ts:38-43 | n calls inside a window that has counted c: the k-th is allowed exactly while c + k < 10, and the window ends at min(c + n, 10) |
| FixedWindow.ElevenCallsInOneWindow | src/app/api/route/claim.ts:25-44 | from a fresh record, of the calls within one hour of the first, calls 1..10 are allowed with 9..0 remaining and every later one is refused with 0 |
| FixedWindow.BoundaryBurst | src/app/api/route/claim.ts:29-35 | the window is fixed, not sliding: from an empty table, 20 calls are all allowed (the 1st at t, 9 at t + 3600000, 10 at t + 3600001), 19 of them within 1 ms |
| RedisRateLimit.Key | src/lib/rateLimit.ts:11 | the key is `ratelimit:` followed by the wallet address |
| RedisRateLimit.KeyInjective | src/lib/rateLimit.ts:11 | two wallets never share a counter |
| RedisRateLimit.GetReply | src/lib/rateLimit.ts:13 | GET answers exactly for a live key |
| RedisRateLimit.AfterIncr | src/lib/rateLimit.ts:25 | INCR adds one to a live counter and keeps its expiry; it restarts a missing or expired key at 1 with no expiry; other keys are unchanged |
| RedisRateLimit.AfterExpire | src/lib/rateLimit.ts:28 | EXPIRE sets a live key's expiry so many seconds ahead, deletes it for a non-positive duration, and ignores a missing key |
| RedisRateLimit.TtlReply | src/lib/rateLimit.ts:17 | TTL is -2 for a missing key, -1 for a key without expiry, else the remaining seconds rounded to within half a second |
| RedisRateLimit.ReadCount | src/lib/rateLimit.ts:13-14 | the counter read back through GET and parseInt is the stored count for a live key, and 0 for an absent key |
| RedisRateLimit.RedisStore.constructor | src/lib/rateLimit.ts:10 | the store starts with the given entries |
| RedisRateLimit.RedisStore.Get | src/lib/rateLimit.ts:13 | GET on the live store answers as the GET reply function |
| RedisRateLimit.RedisStore.Incr | src/lib/rateLimit.ts:25 | INCR replaces the store by the INCR effect on it |
| RedisRateLimit.RedisStore.Expire | src/lib/rateLimit.ts:28 | EXPIRE replaces the store by the EXPIRE effect on it |
| RedisRateLimit.RedisStore.Ttl | src/lib/rateLimit.ts:17 | TTL on the live store answers as the TTL reply function |
| RedisRateLimit.CheckRateLimit | src/lib/rateLimit.ts:4-36 | the sequence GET, TTL or INCR, then EXPIRE, gives the decision and the new store of the one-call specification |
| RedisRateLimit.CheckRejectsWhenFull | src/lib/rateLimit.ts:16-23 | with count >= maxRequests the call is refused with 0 remaining and resetTime = now + ttl * 1000, and the store is unchanged |
| RedisRateLimit.CheckCounts | src/lib/rateLimit.ts:25-35 | below the ceiling the counter rises by exactly one, remaining = maxRequests - count - 1 and resetTime = now + windowMs |
| RedisRateLimit.CheckSetsExpiryOnFirstCall | src/lib/rateLimit.ts:27-29 | only the first call of a window sets the expiry, to floor(windowMs / 1000) seconds ahead; later calls keep it |
| RedisRateLimit.SubSecondWindowKeepsNoCounter | src/lib/rateLimit.ts:27-29 | a window under one second truncates to EXPIRE 0, which deletes the counter, so the call is allowed and nothing is kept |
| RedisRateLimit.CheckFrame | src/lib/rateLimit.ts:11-29 | a call leaves every other wallet's counter unchanged |
| RedisRateLimit.CheckKeepsExpiry | src/lib/rateLimit.ts:16-29 | if every counter carries an expiry, calls keep it so, and a refusal then reports a reset no earlier than now |
| RedisRateLimit.CheckKeepsCeiling | src/lib/rateLimit.ts:16-25 | with a fixed ceiling, no live counter ever exceeds it |
| RedisRateLimit.DefaultArguments | src/lib/rateLimit.ts:4-36 | with the defaults 10 and one hour, a wallet's first call leaves 9 and opens a counter expiring 3600000 ms from now; a live counter at 10 is refused with 0 remaining and the store unchanged |
| ClaimRoute.ValidateScore | src/app/api/route/claim.ts:60-74 | valid iff the score is a number in 0..10000 and a multiple of 100; the reasons come in the order negative, too high, format, and NaN is a format error |
| ClaimRoute.GetPrecheck | src/app/api/route/claim.ts:86-109 | GET passes its own checks iff both parameters are non-empty, the address is well formed and the parsed score is valid; otherwise it answers 400 |
| ClaimRoute.Get | src/app/api/route/claim.ts:80-168 | the GET handler answers, calls and updates the limiter as the GET specification, and keeps the limiter's invariant |
| ClaimRoute.GetRejectionCostsNoQuota | src/app/api/route/claim.ts:86-113 | a GET refused by its own checks answers 400, signs nothing and leaves the limiter table unchanged |
| ClaimRoute.GetNaNScore | src/app/api/route/claim.ts:102-108 | a score parseInt cannot read is refused as "Invalid score format" |
| ClaimRoute.GetRateLimited | src/app/api/route/claim.ts:113-129 | a GET the limiter refuses gets 429 with retryAfter 3600, the limit, remaining and Retry-After headers "10", "0" and "3600"; nothing is signed and the table is unchanged |
| ClaimRoute.RetryHeaderValues | src/app/api/route/claim.ts:122-126 | the rate-limit headers are the texts "10", "0" and "3600" |
| ClaimRoute.GetSignsOnce | src/app/api/route/claim.ts:131-159 | an admitted GET whose timestamp packs as a uint256 signs once, for the address, the parsed score and the given or current timestamp, and reports the signature and the limiter's remaining |
| ClaimRoute.GetUnpackableTimestamp | src/app/api/route/claim.ts:131-166 | an admitted GET whose timestamp is NaN, negative or unsafe answers 500 "Failed to generate signature" with the encoding error's message, signs nothing, and still spends the limiter's unit |
| ClaimRoute.LetterTimestampUnpackable | src/app/api/route/claim.ts:132 | the timestamp "abc" is one such: parseInt reads no number from it |
| ClaimRoute.MintErrorMessage | src/app/api/route/claim.ts:290-300 | the failure text by priority: the INSUFFICIENT_FUNDS code, then "Only game admins", then "Session already claimed", then the raw message, then "Failed to mint tokens" |
| ClaimRoute.PostPrecheck | src/app/api/route/claim.ts:180-202 | POST passes its own checks iff address, score and session id are present, the address is well formed and the score is valid; otherwise it answers 400 |
| ClaimRoute.Post | src/app/api/route/claim.ts:174-310 | the POST handler answers, calls and updates the limiter as the POST specification, and keeps the limiter's invariant |
| ClaimRoute.PostRejectionCostsNoQuota | src/app/api/route/claim.ts:180-205 | a POST refused by its own checks answers 400, calls nothing and leaves the limiter table unchanged |
| ClaimRoute.PostExpiredCostsQuota | src/app/api/route/claim.ts:205-222 | a truthy timestamp more than 5 minutes old is refused with 400 "Session expired. Please play again." only after the limiter counted the call, which changes the table |
| ClaimRoute.PostMintsOnlyUnclaimed | src/app/api/route/claim.ts:235-259 | a mint call happens only after every check passed and the contract reported the session unclaimed with enough gas; it is for the request's player and session, and for score / 100 coins (which times 100 is the score) |
| ClaimRoute.MintCallAfterChecks | src/app/api/route/claim.ts:214-259 | after the limiter, a mint call implies admission, freshness, an unclaimed session and enough gas, and is for score / 100 coins |
| ClaimRoute.PostSuccess | src/app/api/route/claim.ts:255-285 | a confirmed mint answers 200 with tokens = score / 100, the receipt hash and the Sepolia link, after the four calls claimedSessions, balance, mintReward, balanceOf in that order; the balance is "0" when its read fails |
| ClaimRoute.MintErrorPriority | src/app/api/route/claim.ts:292-297 | a revert naming both admins and duplicates is reported as the authorization failure, and the funds code beats both |
| SolanaClaimRoute.ValidateScore | src/app/api/solana-claim/route.ts:29-34 | valid iff 0 <= score <= 10000 and score is a multiple of 100, with the reasons in the order negative, too high, format |
| SolanaClaimRoute.ValidateScoreAgrees | src/app/api/solana-claim/route.ts:29-34 | this route accepts exactly the scores the EVM route accepts, and gives the same reasons except the shorter too-high text |
| SolanaClaimRoute.Alphabet | src/app/api/solana-claim/route.ts:83 | the signature alphabet has 62 characters |
| SolanaClaimRoute.AlphabetIndex | src/app/api/solana-claim/route.ts:84 | a sample in [0, 1) selects an index inside the alphabet |
| SolanaClaimRoute.MockSignature | src/app/api/solana-claim/route.ts:82-86 | the mock signature has 88 characters; the i-th is the alphabet letter the i-th sample selects |
| SolanaClaimRoute.MockSignatureAlphanumeric | src/app/api/solana-claim/route.ts:82-86 | every character of the mock signature is an ASCII letter or digit |
| SolanaClaimRoute.Tokens | src/app/api/solana-claim/route.ts:79 | the token count is the floor of score / 100 |
| SolanaClaimRoute.TokensOfValidScore | src/app/api/solana-claim/route.ts:79 | for an accepted score, the division is exact and the tokens lie in 0..100 |
| SolanaClaimRoute.Precheck | src/app/api/solana-claim/route.ts:42-53 | the POST passes its own checks iff player, score, game type and session id are present and the score is valid; otherwise it answers 400 |
| SolanaClaimRoute.Post | src/app/api/solana-claim/route.ts:36-107 | the POST handler answers and updates its limiter as the POST specification, and keeps the limiter's invariant |
| SolanaClaimRoute.RejectionCostsNoQuota | src/app/api/solana-claim/route.ts:42-56 | a missing field or an invalid score answers 400 and leaves the limiter table unchanged |
| SolanaClaimRoute.ExpiredCostsQuota | src/app/api/solana-claim/route.ts:56-70 | a stale truthy timestamp is refused with "Session expired." after the limiter counted the call |
| SolanaClaimRoute.ClaimSucceeds | src/app/api/solana-claim/route.ts:79-97 | an admitted fresh claim answers 200 with score / 100 tokens in 0..100, an 88-character alphanumeric signature and the devnet explorer link to it |
| MintTokensRoute.ValidateScore | src/app/api/mint-tokens/route.ts:27-38 | valid iff the score is absent (undefined compares false both ways) or 0 <= score <= 1000, with no multiple-of-100 rule |
| MintTokensRoute.ValidateScoreIgnoresGameData | src/app/api/mint-tokens/route.ts:27-38 | the game data never changes the verdict |
| MintTokensRoute.Server.constructor | src/app/api/mint-tokens/route.ts:15 | the processed-session set starts empty |
| MintTokensRoute.Server.Post | src/app/api/mint-tokens/route.ts:51-133 | the POST handler answers, calls and updates the processed set as the POST specification, bodies with absent fields included |
| MintTokensRoute.Server.Get | src/app/api/mint-tokens/route.ts:136-162 | the GET handler answers and calls as the GET specification, and changes no state |
| MintTokensRoute.PostRecordsOnlyConfirmedMints | src/app/api/mint-tokens/route.ts:104-132 | the answer is 200 iff the mint was attempted and confirmed; only then is the session added to the set, and every rejection or exception leaves the set unchanged |
| MintTokensRoute.PostMintsScore | src/app/api/mint-tokens/route.ts:57-104 | for every body, absent fields included: a mint call implies a present well-formed address, a present session unknown locally and unclaimed on chain, and a present score in 1..1000 minted as itself |
| MintTokensRoute.PostMissingScore | src/app/api/mint-tokens/route.ts:64-131 | a body without a score passes every check, queries the chain, and on an unclaimed session fails with a 500 when ethers cannot encode the score; nothing is minted and the set is unchanged |
| MintTokensRoute.PostMissingSessionId | src/app/api/mint-tokens/route.ts:72-131 | a body without a session id passes the local checks and fails with a 500 before any call is sent, leaving the set unchanged |
| MintTokensRoute.PostLocalDuplicate | src/app/api/mint-tokens/route.ts:72-77 | a session in the set is refused with 400 "Session already claimed" before any contract call |
| MintTokensRoute.PostChainDuplicate | src/app/api/mint-tokens/route.ts:94-100 | a session the contract reports claimed is refused with 400 even when the set lacks it, after exactly one call |
| MintTokensRoute.NoSecondMint | src/app/api/mint-tokens/route.ts:72-113 | after a successful POST, another POST for the same session with a valid address and an absent or positive score makes no contract call |
| MintTokensRoute.GetReportsMembership | src/app/api/mint-tokens/route.ts:140-154 | without a session id GET answers 400 and calls nothing; otherwise it reports the chain's answer, and processedLocally is set membership |
| Validators.PatternIssuesExact | src/lib/validators.ts:4 | a pattern field reports an issue exactly when it is not `0x` followed by the required number of hex digits |
| Validators.ScoreIssuesExact | src/lib/validators.ts:5 | the score reports an issue exactly when it is not an integer in [0, 10000] |
| Validators.TimestampIssuesExact | src/lib/validators.ts:7 | the timestamp reports an issue exactly when it is not a positive integer |
| Validators.ClaimIssuesName | src/lib/validators.ts:3-8 | the issues of an object name exactly its failing fields |
| Validators.ValidateClaimRequest | src/lib/validators.ts:16-18 | success iff the value is an object whose four fields pass their rules, returning those values; otherwise a non-empty issue set naming exactly the failing fields; a value that is not an object gives one type issue at the root |
| Validators.GetClaimAccepts | src/lib/validators.ts:10-14 | getClaimSchema accepts iff the address is `0x` plus 40 hex digits, the score a non-empty digit string, and the timestamp absent or a digit string |
| Validators.GetScoreParses | src/lib/validators.ts:12 | a score the GET schema accepts is read by parseInt as exactly the number its digits denote |
| Validators.RouteScoreFitsSchema | src/lib/validators.ts:5 | every score the claim route accepts passes the schema's score rule |
| Validators.SchemaScoreWeakerThanRoute | src/lib/validators.ts:5 | the schema has no multiple-of-100 rule: 50 passes it and the route refuses it |
| Validators.ScoreChecksAccumulate | src/lib/validators.ts:5 | a fractional score out of range reports both the integer issue and the range issue |
| Validators.UpperCasePrefixRefused | src/lib/validators.ts:4 | the prefix must be lower-case `0x`: `0X` with 40 hex digits is not an address |
| Validators.AddressAndSessionIdDisjoint | src/lib/validators.ts:4-6 | no value is both an address and a session id |
| GameRewards.SpaceConstants | solana-programs/game-rewards/programs/game-rewards/src/lib.rs:207-235 | GameConfig::SPACE is 132 and ClaimRecord::SPACE is 89; a configuration fits iff its name and symbol take at most 42 UTF-8 bytes together, and a record always fits exactly |
| GameRewards.Pow10FitsU64 | solana-programs/game-rewards/programs/game-rewards/src/lib.rs:62 | 10^d fits a u64 iff d <= 19 |
| GameRewards.Program.constructor | solana-programs/game-rewards/programs/game-rewards/src/lib.rs:124-150 | the program starts with no game, no records and no tokens |
| GameRewards.Program.InitializeGame | solana-programs/game-rewards/programs/game-rewards/src/lib.rs:12-33 | the instruction's effect on the accounts is the initialisation specification's; a failure changes nothing |
| GameRewards.Program.ClaimReward | solana-programs/game-rewards/programs/game-rewards/src/lib.rs:36-102 | the instruction's effect on the accounts is the claim specification's; any failure reverts everything |
| GameRewards.Program.AddAdminKey | solana-programs/game-rewards/programs/game-rewards/src/lib.rs:105-121 | the instruction's effect on the accounts is the add-admin specification's; a failure changes nothing |
| GameRewards.InitializeSetsConfig | solana-programs/game-rewards/programs/game-rewards/src/lib.rs:18-26 | an initialisation succeeds iff no game exists and the names fit; it then records the signer as authority, the mint, names and decimals, with both totals 0 |
| GameRewards.ClaimNeedsAuthority | solana-programs/game-rewards/programs/game-rewards/src/lib.rs:45-48 | a claim not signed by the authority fails with UnauthorizedClaim |
| GameRewards.ClaimOncePerSession | solana-programs/game-rewards/programs/game-rewards/src/lib.rs:165-172 | a session with a record is refused as "account already in use" before any other check, so SessionAlreadyClaimed never occurs |
| GameRewards.NoDoubleClaim | solana-programs/game-rewards/programs/game-rewards/src/lib.rs:51-54 | right after a session is claimed, claiming it again fails whoever signs and whatever the score |
| GameRewards.ClaimTokenCount | solana-programs/game-rewards/programs/game-rewards/src/lib.rs:57-58 | scores below 100 fail with InvalidScore; a successful claim records score / 100 >= 1 tokens |
| GameRewards.ClaimCheckedScale | solana-programs/game-rewards/programs/game-rewards/src/lib.rs:61-63 | the minted amount is tokens * 10^decimals; a product beyond u64 fails with Overflow, and decimals of 20 or more panic |
| GameRewards.ClaimRecordsAndCounts | solana-programs/game-rewards/programs/game-rewards/src/lib.rs:83-96 | a successful claim stores (player, session, score, tokens, clock, claimed), adds 1 claim and its tokens to the totals, and leaves other records, other balances and the authority unchanged |
| GameRewards.TotalsMonotone | solana-programs/game-rewards/programs/game-rewards/src/lib.rs:95-96 | a claim strictly raises both totals, and add_admin leaves them unchanged |
| GameRewards.AddAdminReplacesAuthority | solana-programs/game-rewards/programs/game-rewards/src/lib.rs:111-117 | only the current authority can hand over the role; afterwards the new key passes the claim check and a different old key fails it |
| GameRewards.InstructionsKeepValid | solana-programs/game-rewards/programs/game-rewards/src/lib.rs:12-33 | initialisation and add_admin preserve the ledger invariant |
| GameRewards.ClaimKeepsValid | solana-programs/game-rewards/programs/game-rewards/src/lib.rs:36-102 | a claim preserves the ledger invariant: claim count = number of records, supply = rewards x 10^decimals, every record a completed claim under its own id |
| GameRewards.ClaimIsCredit | solana-programs/game-rewards/programs/game-rewards/src/lib.rs:45-96 | a successful claim passed the account, authority, token and overflow checks, and its effect is the credit of score / 100 tokens |
| GameRewards.CreditKeepsValid | solana-programs/game-rewards/programs/game-rewards/src/lib.rs:83-96 | crediting a new session's tokens, scaled by the decimals, preserves the invariant |
| GameRewards.MintedWholeTokens | solana-programs/game-rewards/programs/game-rewards/src/lib.rs:130 | when the configured decimals equal the mint's 9, the supply grows by whole tokens of the mint |
| GameRewards.TestInitialize | solana-programs/game-rewards/tests/game-rewards.ts:40-61 | the test's initialisation with ASCII names and 9 decimals gives the configuration it checks, with zero totals |
| GameRewards.FreshClaimSucceeds | solana-programs/game-rewards/tests/game-rewards.ts:63-107 | on the fresh game, the authority's claim of any score from 100 to 1000000 succeeds |
| GameRewards.TestClaim500 | solana-programs/game-rewards/tests/game-rewards.ts:63-107 | a score of 500 records 5 tokens, moves the totals to (5, 1) and credits 5 * 10^9 |
| GameRewards.TestDoubleClaim | solana-programs/game-rewards/tests/game-rewards.ts:109-162 | the second claim of a session fails with a message including "already in use" |
| GameRewards.TestLowScore | solana-programs/game-rewards/tests/game-rewards.ts:164-200 | a score of 50 fails with a message including "Invalid score" |
| ClaimSolana.SessionIdOf | src/lib/contracts/claimSolana.ts:27 | the session id always has 32 bytes |
| ClaimSolana.ColumnUpdate | src/lib/contracts/claimSolana.ts:28-30 | changing one input byte changes only its column, by the XOR of the old and new byte |
| ClaimSolana.ColumnOfShort | src/lib/contracts/claimSolana.ts:28-30 | for input of at most 32 bytes, column j is byte j, or 0 past the end |
| ClaimSolana.Fold | src/lib/contracts/claimSolana.ts:27-30 | the loop XOR-ing each byte into a zeroed 32-byte buffer at i % 32 yields, in a fresh array, the XOR of the bytes at positions i with i % 32 = j for each j |
| ClaimSolana.GenerateSessionId | src/lib/contracts/claimSolana.ts:22-33 | the id is the 32-byte fold of the UTF-8 bytes of `address:score:timestamp` |
| ClaimSolana.ShortInputIsPadded | src/lib/contracts/claimSolana.ts:27-30 | input of at most 32 bytes comes back zero-padded to 32 |
| ClaimSolana.SwapKeepsSessionId | src/lib/contracts/claimSolana.ts:28-30 | swapping the bytes at i and i + 32 gives the same id, so the fold is not injective |
| ClaimSolana.ClaimSolanaReward | src/lib/contracts/claimSolana.ts:74-133 | the client's result and the request it sends are those of the claim specification |
| ClaimSolana.ClaimGuards | src/lib/contracts/claimSolana.ts:79-90 | a request is sent iff score >= 100; non-positive scores and scores 1..99 fail with their own messages, in that order; a sent request carries the current time and the 32-byte id folded from its input |
| ClaimSolana.ClaimReportsReply | src/lib/contracts/claimSolana.ts:112-132 | a sent claim succeeds iff the route answered ok with JSON, and then reports its signature and tokens; a refusal reports the route's error or "Solana claim failed", and a failure never has an empty message |
| ClaimSolana.GuardsWeakerThanRoute | src/lib/contracts/claimSolana.ts:79-86 | a score of 150 passes the client's guards and is refused by the route as not a multiple of 100 |
| ClaimSolana.GetSolanaExplorerUrl | src/lib/contracts/claimSolana.ts:151-153 | the link is the same devnet explorer link the Solana route reports |
| ClaimTokenBackend.Browser.constructor | src/lib/contracts/claimTokenBackend.ts:26-30 | the browser starts with no effects |
| ClaimTokenBackend.Browser.SetIsClaiming | src/lib/contracts/claimTokenBackend.ts:39 | setting the flag appends exactly that effect |
| ClaimTokenBackend.Browser.Record | src/lib/contracts/claimTokenBackend.ts:51-62 | a request appends exactly that effect |
| ClaimTokenBackend.BackendErrorMessage | src/lib/contracts/claimTokenBackend.ts:83-93 | the failure text by priority: "Rate limit", then "already been claimed", then "Session expired", then the raw message, then the default |
| ClaimTokenBackend.ClaimTokensViaBackend | src/lib/contracts/claimTokenBackend.ts:26-100 | the result and the appended effects are those of the backend specification, including the packing failure of the session id before the fetch |
| ClaimTokenBackend.BackendGuardAndFlag | src/lib/contracts/claimTokenBackend.ts:14-99 | a non-positive score fails with no effects; otherwise the flag is raised and ends false; arguments `solidityPacked` rejects (an address ethers refuses, a score or timestamp that is not a safe unsigned integer) send nothing and fail with the classified packing error; packable ones send exactly one request with their keccak session id and now; success iff packable and the route answered ok with JSON; a failure never has an empty message |
| ClaimTokenBackend.UnsafeScoreSendsNothing | src/lib/contracts/claimTokenBackend.ts:14-43 | a score of 2^53 cannot be packed, so no request is sent and only the flag goes up and down |
| ClaimTokenBackend.RateLimitRefusalClassified | src/lib/contracts/claimTokenBackend.ts:85-86 | the claim route's rate-limit refusal is shown as "Too many claims. Please wait before trying again." |
| ClaimTokenBackend.DuplicateRefusalClassified | src/lib/contracts/claimTokenBackend.ts:87-88 | the route's duplicate-session refusal hits the "already been claimed" branch |
| ClaimTokenBackend.ExpiryRefusalClassified | src/lib/contracts/claimTokenBackend.ts:89-90 | the route's stale-timestamp refusal hits the "Session expired" branch |
| ClaimTokenBackend.UntextedRefusalClassified | src/lib/contracts/claimTokenBackend.ts:66-67 | a refusal without error text matches no branch and shows the thrown fallback text |
| ClaimTokenBackend.DirectErrorMessage | src/lib/contracts/claimTokenBackend.ts:187-197 | the direct path's failure text by priority: "Only game admins", then "Session already claimed", then the ACTION_REJECTED code, then the raw message, then "Transaction failed" |
| ClaimTokenBackend.ClaimTokensDirect | src/lib/contracts/claimTokenBackend.ts:137-204 | the result and the appended effects are those of the direct specification, including the packing failure of the session id before the contract call |
| ClaimTokenBackend.DirectGuardsAndCoins | src/lib/contracts/claimTokenBackend.ts:149-203 | a missing contract address is reported before a non-positive score, and both do nothing else; otherwise the flag wraps the rest: unpackable arguments call no contract and fail with the classified packing error; packable ones make one mintReward call for score / 100 coins under their keccak session id, reported on success with the receipt hash |
| ClaimTokenBackend.RejectedAddressCallsNothing | src/lib/contracts/claimTokenBackend.ts:163-172 | for an address ethers rejects, the session id throws and no contract is called |
| ClaimTokenBackend.WalletRejectionClassified | src/lib/contracts/claimTokenBackend.ts:193-194 | a wallet rejection whose message names neither contract check is shown as "Transaction was rejected." |
| Middleware.Decide | src/middleware.ts:4-30 | refused with 401 "Unauthorized" iff the path starts with /api/claim, the method is DELETE or PUT and the key does not match; otherwise it continues, with the CORS headers on gated paths and none elsewhere |
| Middleware.UngatedPassesThrough | src/middleware.ts:29 | outside /api/claim nothing is checked and nothing is added |
| Middleware.OtherMethodsNeedNoKey | src/middleware.ts:11 | for methods other than DELETE and PUT the key never matters and the request always continues |
| Middleware.UnsetSecretRefusesAdmin | src/middleware.ts:11-18 | without API_SECRET_KEY every DELETE or PUT on a gated path is refused, with or without a header |
| Middleware.OriginDefault | src/middleware.ts:21-26 | an admitted gated request allows the configured origin, or any origin when none is set, with the fixed methods and headers lists |
| Middleware.PrefixGatesLongerPaths | src/middleware.ts:6 | the match is by prefix: every path beginning /api/claim is gated |
| GameUtils.OverlapIsIntersection | src/lib/gameUtils.ts:90-103 | two rectangles overlap iff their padded closed extents intersect on both axes |
| GameUtils.OverlapSymmetric | src/lib/gameUtils.ts:90-103 | the overlap test does not depend on the order of the rectangles |
| GameUtils.ClampCount | src/lib/gameUtils.ts:21 | the requested count is clamped into [5, 20], and a count already inside stays |
| GameUtils.GenerateRandomCoins | src/lib/gameUtils.ts:12-85 | with at most 1000 attempts, at most the clamped count of new 20x20 coins, each inside the safe zone x in [50, 974), y in [80, 426), overlapping no platform and no other coin, and not within 50 above a ground platform |
| GameUtils.AirPlatforms | src/lib/gameUtils.ts:124 | the retained platforms are exactly those above the ground line y < 450 |
| GameUtils.PickIndex | src/lib/gameUtils.ts:130 | a sample picks an index inside the platform list |
| GameUtils.GenerateCoinsNearPlatforms | src/lib/gameUtils.ts:115-156 | at most numCoins new coins, none without air platforms; each lies 50 to 150 above an air platform, and any two differ by at least 40 in x or in y |
| GameUtils.RandomCoinCount | src/lib/gameUtils.ts:108-110 | a sample in [0, 1) gives a count in [min, max] |
| GameUtils.MixedSplit | src/lib/gameUtils.ts:164-166 | a total in [8, 20] splits into a platform part of 4..12 and a random part of 4..8 that add up to it; the random part is 4 exactly for totals up to 10, which the random generator raises to 5 |
| GameUtils.GenerateMixedCoins | src/lib/gameUtils.ts:161-172 | a total from [8, 20]; at most its platform share plus the clamped random share of new coins |
| Text.ParseIntOfIntToString | src/lib/rateLimit.ts:14 | parseInt recovers every integer from its decimal text |
| Text.ParseIntOfLetter | src/app/api/route/claim.ts:132 | parseInt of text that starts with a letter is NaN |
| Text.ParseIntOfDigits | src/app/api/route/claim.ts:102 | parseInt of a digit string is the number its digits denote |
| Text.Utf8LengthOfAscii | src/lib/contracts/claimSolana.ts:23-24 | ASCII text encodes to one UTF-8 byte per character |

## Left out

- OPTIONS handlers (src/app/api/route/claim.ts:315-323, src/app/api/solana-claim/route.ts:109-120): constant CORS replies with no decision in them.
- `getClaimSignature` (src/lib/contracts/claimTokenBackend.ts:106-131): fetch glue with no guard, flag or classification.
- Keccak and `solidityPacked` session ids, message hashing and ECDSA signing (src/app/api/route/claim.ts:49-55, 133-144): foreign cryptography. The signer's result is the parameter `sign`, and the browser's keccak of the packed bytes is the function parameter `keccak`; when packing fails is modelled (`ClaimTokenBackend.Packable`).
- `ethers.isAddress`: a parameter `isAddress`. `ethers.parseEther('0.001')` is written out as 10^15 wei. `formatEther` is not modelled: the new balance is the text the contract read gives.
- Chain and network I/O (contract calls, `provider.getBalance`, `tx.wait`, `fetch`, `response.json()`): each outcome is a `Js.Reply` parameter, and handlers report the calls they make, in order.
- `Date.now()` and `Math.random()`: the parameter `now` and supplied sample sequences.
- `console` logging and Anchor `msg!` logs: no observable effect on results.
- Concurrency: each handler and each limiter call runs atomically. The read-then-write races on the in-memory maps and on Redis (get then incr) are out of scope.
- JSON request bodies: in every route, `score` and `timestamp` are integers or absent and the other fields are text or absent. Strings, fractions and the infinities `JSON.parse` gives for literals such as `1e400` are not modelled as numbers. GET's `parseInt` result is an integer or NaN (`None`).
- The text of the errors ethers throws: an argument it cannot encode raises the parameter `encodeError`. Any `undefined` argument, or a number that is not a safe non-negative integer, counts as not encodable (`Issuer.EncodableUint`).
- A session id that is text but not 32 bytes of hex: ethers' refusal to encode it is left to the `claimed` and `mint` reply parameters in both EVM routes.
- Floating point: coin coordinates are exact reals, and `Math.floor` is `Floor`. Rounding of JavaScript doubles is not modelled.
- `String.prototype.toUpperCase` on the game type: ASCII letters only. Other characters stay unchanged in the model.
- `TextEncoder`: characters are encoded one by one as UTF-8. Surrogate pairs are not combined.
- Redis itself: the server's semantics are stated by the model (keys live while `now <= expiresAt`, TTL rounded to the nearest second, EXPIRE with a non-positive time deletes). Server connection (`getRedisClient`) is left out.
- Anchor and Solana plumbing: one game (one mint); PDA derivation and bumps as stored values; rent, payer and associated token account creation; `mint_to` as a credit to the ledger. Overflow checks on `+=` are assumed on, as in Anchor's release profile.
- The Next.js `matcher` (src/middleware.ts:32-34): the decision is modelled for whatever path reaches the middleware.
- `Text.Utf8LengthOfAscii`: states only the encoded length, not that each byte equals its character's code.
- `GameUtils.GenerateMixedCoins`: states the count bound and that every coin is new, not the placement facts of the two parts (each part's own method states those). The two parts are not checked against each other in the source either.
- `Validators.ValidateClaimRequest`: zod's issue order and exact messages, and its handling of unknown keys, are not modelled. Issues are a set of (path, kind).
- `ClaimTokenBackend.DirectGuardsAndCoins`: the coin count a score that is not a multiple of 100 yields is a fraction, as in the source. What ethers does with it is part of the `mint` reply parameter.
- Scores on the browser side: the clients' `score: number` (src/lib/contracts/claimSolana.ts:9, src/lib/contracts/claimTokenBackend.ts:6) is an integer in the model. Fractional scores are not modelled.
- `GameRewards.ClaimCheckedScale`: the SPL token program's own u64 limits on balance and supply appear as one `TokenOverflow` failure, not as the token program's error codes.
