# A model of Anchorage's SEP-10 server

Anchorage authenticates Stellar accounts: GET /auth signs a challenge transaction that can never be
submitted, the client signs it too, and POST /auth exchanges it, once, for a token. This project models
that life cycle, and the two in-process state machines beside it, and proves what they promise.

| file | what it models |
|---|---|
| `Txn.dfy` | parsed transactions, the failure classes, and the libraries as a record of functions (`Env`) |
| `Signatures.dfy`, `Verify.dfy`, `Acceptance.dfy` | who signed, who has to have signed, and what acceptance proves |
| `Base64.dfy`, `Reader.dfy`, `Issuer.dfy` | the nonce's spelling, reading a posted challenge, building one |
| `Token.dfy` | memos, the subject claim, the claims |
| `Store.dfy`, `StoreRuns.dfy` | the two tables and the cleanup loop; every schedule of SQL statements |
| `Records.dfy`, `Handlers.dfy` | the two handlers, each on its own, over the store |
| `Protocol*.dfy` | any number of handlers and the cleanup loop, interleaved statement by statement |
| `HandlerRuns.dfy` | the handlers on their own are runs of that protocol |
| `RateLimiter.dfy`, `TokenBucket.dfy`, `SkewBound.dfy` | the token buckets, what they allow, and how much clock skew their sweep bears |
| `Resolver.dfy` | the client-domain cache under interleaved calls |
| `Prelude.dfy` | options, results, duplicate-free sequences, the pigeonhole principle, string order |

Code that changes state in place is a class (`Store.Postgres`, `RateLimiter.Limiter`,
`Resolver.Resolver`) or a method with loops (`MatchSigners`, `VerifySigners`, `ReadChallenge`, `Issue`).
Each method is proved equal to a function, and the theorems are about that function.

## Hypotheses

Nothing about the libraries is built in. Theorems name what they need:

- `LawfulAddresses`: G... and M... addresses are disjoint, not empty and hold no colon.
- `LawfulHash`: the transaction hash is injective and not empty.
- `LawfulSigner`: the server's seed gives a real address whose signatures verify under it.
- `LawfulBuild`: the SDK's BuildChallengeTx returns the two-operation challenge it documents, signed once.
- `Unambiguous`: no signature of the transaction is accepted under two of the keys concerned. Soundness of
  acceptance (`AcceptedIsAttested`, `AcceptedIsAuthorised`, `TokenEndToEnd`) does not need it.
- `Unforged`: a posted server signature is on a challenge the server has answered with.
- `Fresh` / `FreshNonces`: no two challenges share a nonce. Where a statement needs it, it says so.

## Where code and documentation disagree

The model follows the code.

- A challenge is consumable at the very instant it expires: internal/store/postgres.go:104 has `>=`, while
  docs/architecture.md:27 and internal/httpapi/fakes_test.go:106 are stricter.
- internal/store/postgres.go:142-147 says the default arm of `classifyFailure` means that another caller
  consumed the row in between. It does not: that arm is reached only if the row was recorded in between
  (`ClassificationSound`, `DefaultArmReachable`), and never in the server with fresh nonces
  (`ClassificationInServer`).
- An issued challenge does not always read back. If a client domain publishes the server's own key,
  `Issue` succeeds and `ReadChallenge` always refuses (`IssueThenRead`, an if-and-only-if;
  `ServerKeyIssuedNeverRead`). An empty configured home domain has the same effect, but only a direct
  caller of `NewIssuer` can supply one: internal/config/config.go drops empty entries.
- A full cache (1024 live entries) does not take a newer key even for a domain it already holds
  (`SaveTakesEffect`, internal/clientdomain/resolver.go:158-161).
- docs/sdk-findings.md says both that the SDK cannot read a client_domain operation and that it accepts two
  of them. The rule it quotes accepts one exactly when it is sourced at the server, which Anchorage refuses.
- docs/endpoints.md:54 gives 401 for a failed account lookup; the handler's table disagrees. Status codes
  are not modelled.

## Model

| member | source | states |
|---|---|---|
| Signatures.MatchSigners | internal/auth/signatures.go:17-54 | the nested loops compute the greedy pairing, or fail on a signer that is no address |
| Signatures.FoundIsInjectiveMaximal | internal/auth/signatures.go:10-16 | the result is a duplicate-free subsequence of the signers, with a different accepted signature for each, and a signer left out accepts no signature that stayed free |
| Signatures.FoundAreThoseWhoSigned | internal/auth/signatures.go:28-51 | when no signature answers to two signers, exactly the signers are found for whom some signature has the hint and verifies |
| Signatures.FoundIgnoresOrder | internal/auth/signatures.go:23-53 | under that hypothesis neither the order of the signers nor that of the signatures matters |
| Signatures.OrderMattersWhenAmbiguous | internal/auth/signatures.go:28-51 | without it they do: one shared signature, and swapping two signers changes who is found |
| Signatures.HintsChangeNothing | internal/auth/signatures.go:38-41 | with honest hints the hint test decides nothing that the signature test would not |
| Verify.VerifySigners | internal/auth/verify.go:93-187 | candidate filtering, matching, the count check and the client-domain check compute the specified verdict |
| Acceptance.AllAccounted | internal/auth/verify.go:168-170 | the count check is a pigeonhole: as many signers found as signatures means every signature has its own maker |
| Acceptance.AcceptedIsAttested | internal/auth/verify.go:95-187 | with no hypothesis on the signature scheme, an accepted challenge's signatures are in bijection with makers: the server, an account signer that is not the client domain, the client domain if named, and nobody else |
| Acceptance.DecidedIsMade | internal/auth/verify.go:149-187 | the signers fail with an unrecognised signature, or every signature has its maker; then only the client domain's absence is an error, and it has its own |
| Acceptance.AcceptanceExact | internal/auth/verify.go:95-187 | acceptance holds if and only if such makers exist, the client domain's key among them, and the signers returned are the makers without the server; the client domain is unverified if and only if they exist but for that key; anything else is an unrecognised signature |
| Acceptance.VerdictBySets | internal/auth/verify.go:99-187 | verdict and error class depend only on the set of signers and on who signed, not on any order |
| Acceptance.ClientDomainNonInterference | internal/auth/verify.go:53-91 | verdict, error class and matched set are the same whether the client domain's key is no signer of the account or one of any weight |
| Acceptance.ServerNonInterference | internal/auth/verify.go:99-114 | nor does it matter whether the server's key is a signer of the account: the server never authenticates on the client's behalf |
| Acceptance.ClientAcceptanceExact | internal/auth/verify.go:28-72 | VerifyClient accepts if and only if the lookup answered, the signatures have such makers, and the account's own signers among them reach the medium threshold; it says the threshold is not met if and only if all but that holds |
| Acceptance.ClientRefusals | internal/auth/verify.go:33-51 | the lookup is asked for the address itself or the account inside a muxed one; an invalid account and a failed lookup have their own errors, every other one is the signers' |
| Acceptance.AcceptedIsAuthorised | internal/auth/verify.go:33-72 | what a token needs: a missing account's master key signed and is not the client domain's key, an existing one's signers reach the threshold |
| Acceptance.AddedSignature | internal/auth/verify.go:168-170 | one more signature on an accepted challenge keeps it accepted exactly when an account signer who had not signed made it; otherwise it is unrecognised |
| Verify.AccountSignerWeight | internal/auth/verify.go:74-91 | the int32 accumulation is the wrapped sum of the weights, one key excluded |
| Acceptance.AccountWeightIsSum | internal/auth/verify.go:82-91 | the weight of a set of signatories is zero for none, and grows by exactly what the account gives each signer added, nothing for a stranger, the server or the client domain |
| Verify.WeightSumNext | internal/auth/verify.go:84-89 | one more matched signer adds its own weight, unless it is the excluded key or no signer |
| Verify.NoOverflow | internal/account/fetcher.go:23-25 | with at most 20 signers and the master key, weighing 0 to 255 each, the int32 sum is the mathematical one |
| Verify.WeightSumByElems | internal/auth/verify.go:82-91 | the sum depends on the set of signers found, not on their order |
| Verify.VerifyClient | internal/auth/verify.go:28-72 | base account, lookup outcome, sorted candidates, verdict and threshold, in that order |
| StringOrder.LessIsBytewise | internal/auth/verify.go:57-58 | the order the account's signers are sorted by: bytewise, a prefix first |
| Base64.ValidNonceIsAlphabet | internal/auth/read.go:129-139 | the length, decoding and decoded-length checks pass if and only if there are 64 letters, digits, plus signs and slashes; then encoding the decoded bytes gives the nonce back |
| Base64.NonceCanonical | internal/auth/read.go:129-139 | accepted nonces and 48-byte values correspond one to one |
| Base64.QuadIsBigEndian | internal/auth/read.go:133 | three bytes and their four symbols are the same number, most significant first, as section 4 of RFC 4648 has it |
| Reader.ReadRest | internal/auth/read.go:141-190 | the loop with its two flags accepts exactly the operations each allowed alone with neither name repeated, and picks out the client domain |
| Reader.ReadChallenge | internal/auth/read.go:47-201 | the one-pass reader equals the declarative one on every input, error class included |
| Reader.ReadChallengeShape | internal/auth/read.go:24-45 | what an accepted challenge guarantees: sequence 0, server signature, window, account, nonce, home domain, memo, and a client domain with a real key other than the server's exactly when it has the operation |
| Reader.ReadRefusals | internal/auth/read.go:55-127 | what each refusal means, in numbers: outside the window with its 300 seconds of grace, a first operation naming none of our home domains, a memo on a muxed account; all else is malformed |
| Reader.ReadersAgreeExactly | docs/sdk-findings.md:24-60 | each reader alone accepts exactly when every other test passes and the operations after the first have its shape: one client_domain from a real key that is not ours, or only server operations with web_auth_domain twice or a client_domain; on every other input result and error are equal |
| Reader.ClientDomainReadHereOnly | docs/sdk-findings.md:24-45 | adding a client_domain operation from any real key but the server's to a sound challenge: this reader accepts it, the SDK's refuses it |
| Reader.ServerOnlyReadBySdk | docs/sdk-findings.md:47-60 | adding a second web_auth_domain operation, or a client_domain one from the server, to a sound challenge: the SDK's reader accepts it, this one refuses it as malformed |
| Issuer.NewIssuer | internal/auth/challenge.go:38-66 | which error each refused configuration gets, and that an accepted one indexes its home domains |
| Issuer.Issue | internal/auth/challenge.go:97-180 | the checks in order, the build, the rebuild and the record returned, which is for the home domain asked for, or the first one, and carries one signature, the server's |
| Issuer.IssueExact | internal/auth/challenge.go:97-180 | a challenge is issued if and only if the account, the memo and the home domain are fine, the SDK builds it, and the client domain is neither missing when required nor without a real key |
| Issuer.IssueRefusals | internal/auth/challenge.go:98-133 | what each refusal means, an unlisted home domain and a missing client domain among them |
| Issuer.AppendClientDomain | internal/auth/challenge.go:182-231 | the old operations as a prefix, all else but the sequence number kept, one signature, the server's and valid; and exactly when it fails |
| Issuer.IssueKeepsWhatWasBuilt | internal/auth/challenge.go:182-231 | the rebuild keeps the operations as a prefix, the bounds, memo and fee, and leaves exactly one signature, which is the server's and valid |
| Issuer.IssuedBodyReads | internal/auth/read.go:86-198 | a transaction with an issued body and any signatures is read inside its window if and only if the server's is there, the home domain is not empty and the client domain's key is not the server's |
| Issuer.IssueThenRead | internal/auth/challenge.go:98-180 | an issued challenge with any signatures appended reads back with the same account, home domain, memo, nonce, client domain and key, under exactly that condition |
| Issuer.ServerKeyIssuedNeverRead | internal/auth/read.go:166-181 | a client domain publishing the server's key is issued a challenge, and reading it back inside its window is refused as malformed |
| Token.MemoRoundTrip | internal/httpapi/auth_handler.go:296-301 | parseMemo undoes memoString on every 64-bit memo and refuses every larger number |
| Token.ParseMemoExact | internal/httpapi/auth_handler.go:137-146 | the memos accepted are exactly the decimals below 2^64 |
| Token.SubjectInjective | internal/token/jwt.go:132-140 | among accounts without a colon the subject determines account and memo |
| Token.SubjectFormat | internal/token/jwt.go:132-140 | the subject is the account alone, or the account, a colon and the memo in decimal, which parses back and has no leading zero |
| Token.ClaimsDetermineSubject | internal/token/jwt.go:80-105 | equal claims come from the same account, memo, client domain and jti, issued within a second |
| RateLimiter.Limiter.DoSweep | internal/httpapi/middleware.go:149-163 | within 60 seconds of the last sweep nothing; otherwise exactly the buckets idle for longer than 600 seconds go |
| RateLimiter.Limiter.DoAllow | internal/httpapi/middleware.go:118-147 | the whole new state and the decision of one call |
| RateLimiter.SweepInvisible | internal/httpapi/middleware.go:110-163 | with clock skew up to nine minutes and a nanosecond, every decision is that of a limiter that never drops a bucket and sees only that key |
| RateLimiter.OtherKeysChangeNothing | internal/httpapi/middleware.go:118-163 | two runs with the same times for a key decide its call alike, whatever other keys do |
| SkewBound.SkewBoundExact | internal/httpapi/middleware.go:23-27 | that bound on the skew is exact at every rate above 0: sweeping is invisible for all runs of a given skew if and only if the skew is at most 540 seconds and a nanosecond |
| RateLimiter.TokenBucketBound | internal/httpapi/middleware.go:118-147 | from any point on, the calls allowed in a window are at most a burst and what its length refills, sweeps or not |
| TokenBucket.TokenBucketExact | internal/httpapi/middleware.go:118-147 | while time does not go back, a call is allowed if and only if it and the calls allowed before it stay within burst plus refill in every window that opens at a call of its key |
| RateLimiter.PatientClientNeverRefused | internal/httpapi/middleware.go:118-147 | a key whose calls are 60/perMinute seconds apart is never refused |
| Resolver.Resolver.Save | internal/clientdomain/resolver.go:144-162 | expired entries go, and the new one enters unless the cache is full of live ones |
| Resolver.Resolver.Lookup | internal/clientdomain/resolver.go:164-174 | a hit is an entry that has not expired |
| Resolver.Resolver.Resolve | internal/clientdomain/resolver.go:119-142 | the answer, and that only a successful fetch of a permitted domain changes the cache |
| Resolver.AllowlistDecides | internal/clientdomain/resolver.go:122-142 | an empty domain, or one missing from a list that is not empty, is refused before any fetch and the cache left alone; any other is served from the cache or fetched |
| Resolver.OnlyAllowed | internal/clientdomain/resolver.go:122-142 | in every run only allowed domains are fetched, stored or served |
| Resolver.ResolveIsARun | internal/clientdomain/resolver.go:119-142 | its lookup, fetch and store as three steps with nothing in between give the same answer and the same cache |
| Resolver.HitsAreFresh | internal/clientdomain/resolver.go:164-174 | a key served at t was fetched from that very domain by some call, and stored by that call at some later u with u <= t < u + TTL, whatever interleaved |
| Resolver.LiveEntriesStay | internal/clientdomain/resolver.go:144-162 | a live entry is never evicted nor its expiry brought forward, even by a slower fetch or a full cache |
| Resolver.SizeBounded | internal/clientdomain/resolver.go:23-35 | the cache never holds more than 1024 entries |
| Resolver.SaveTakesEffect | internal/clientdomain/resolver.go:158-161 | a store is lost exactly when the cache is full of live entries |
| Resolver.CacheInvisibleWhenStable | internal/clientdomain/resolver.go:119-142 | while every fetch finds what its domain publishes, every call answers as the uncached resolver |
| Store.Postgres.RecordChallenge | internal/store/postgres.go:76-90 | inserts unless the nonce is there already, and changes nothing else |
| Store.Postgres.Claim | internal/store/postgres.go:98-112 | the UPDATE: only an unconsumed row that has not expired changes, and it is returned |
| Store.Postgres.ClassifyFailure | internal/store/postgres.go:122-148 | the error for each state of the row |
| Store.Postgres.ConsumeChallenge | internal/store/postgres.go:92-120 | both statements alone: success if and only if consumable, and each error exactly for its cause |
| Store.Postgres.RecordSession | internal/store/postgres.go:150-163 | inserts unless the jti is there already |
| Store.Postgres.DeleteExpiredChallenges | internal/store/postgres.go:165-175 | removes exactly the expired rows and counts them |
| Store.Postgres.CleanupExpiredChallenges | internal/store/postgres.go:177-205 | the loop removes exactly the rows expired at some completed tick, failures skipped, none after cancellation |
| Store.DeleteTimesExact | internal/store/postgres.go:183-205 | the deletes that run are those of the ticks that succeed before the loop is cancelled |
| StoreRuns.Conservation | internal/store/postgres.go:76-120 | on every schedule, recordings of a nonce equal consumptions, plus one for an open row, plus rows cleaned up unconsumed |
| StoreRuns.ClassificationSound | internal/store/postgres.go:98-148 | whatever runs between UPDATE and SELECT, consumed, expired and unknown mean what they say; the default arm means the row was recorded in between |
| StoreRuns.DefaultArmUnreachable | internal/store/postgres.go:142-147 | dead code when nonces are fresh and recorded before they are posted |
| StoreRuns.DefaultArmReachable | internal/store/postgres.go:142-147 | without that order it reports consumed for a nonce nobody consumed |
| StoreRuns.CleanupSimulates | internal/store/postgres.go:165-205 | the store with cleanup is the one without it, less rows that had expired before some cleanup |
| StoreRuns.CleanupInvisibleExact | internal/store/postgres.go:98-175 | a consumption that succeeds with cleanup also does without, with the same record; and the two differ if and only if this is the first UPDATE in time for a recording and a cleanup in between carried a time past the row's expiry, a condition on the schedule alone |
| StoreRuns.CleanupInvisible | internal/store/postgres.go:98-175 | so the two agree when no handler's time is older than an earlier cleanup's |
| StoreRuns.StaleClockLosesRow | internal/httpapi/auth_handler.go:181-182 | such schedules exist: time read before a cleanup, UPDATE after it |
| StoreRuns.ReusedNonceConsumedAgain | internal/store/migrations/000001_init.up.sql:1-23 | fresh nonces are needed: the primary key forgets a nonce once its row is cleaned up |
| Handlers.GetAuth | internal/httpapi/auth_handler.go:84-133 | the challenge is in the store, field by field, when it is answered, a failed request stores nothing, and each failure gets its own answer |
| Handlers.PostAuth | internal/httpapi/auth_handler.go:153-246 | the posted challenge is read by Unix seconds and its nonce spent before signatures are checked; a token is given exactly when every check passes, its session is then on record, and only then; the session and the claims, field by field |
| Handlers.SpendRefusals | internal/httpapi/auth_handler.go:181-242 | the answer to each failure after the reading |
| HandlerRuns.GetIsARun | internal/httpapi/auth_handler.go:84-133 | the method with nothing in between is the run Issue, Record, Respond as far as it gets: same store, same answer |
| HandlerRuns.PostIsARun | internal/httpapi/auth_handler.go:153-246 | the method with nothing in between is the run Read, Clock, Consume and then Classify, or Compare, Verify, Mint, Deliver, as far as it gets: same store, same answer |
| ProtocolInvariant.StepKeepsInv | internal/httpapi/auth_handler.go:84-246 | every step of every handler, of a crash or of the cleanup loop, its clock read any time before its DELETE, keeps the protocol's invariant |
| ProtocolInvariant.ReadIsReleased | internal/auth/read.go:192-198 | a posted challenge the reader accepts is one the server had answered with, read back |
| ProtocolSafety.ReachableSpending | internal/httpapi/auth_handler.go:170-200 | in every reachable state consumed rows have their consumer, jtis differ, and with fresh nonces a nonce has one consumer and keeps its row until expiry |
| ProtocolTheorems.TokenEndToEnd | internal/httpapi/auth_handler.go:155-246 | every delivered token has the claims of an answered GET's request, its session is on record, the row spent names the same account and client domain, and the challenge carried the account's authority within its time; with fresh nonces that GET is the only one and the session's home domain is the one it asked for |
| ProtocolTheorems.OneTokenPerChallenge | internal/httpapi/auth_handler.go:170-187 | no two tokens share a jti; with fresh nonces a challenge gives one attempt and one token at most |
| ProtocolTheorems.ServerConservation | internal/httpapi/auth_handler.go:115-200 | tokens are among the VerifyClient calls, these among the consumptions, and consumptions with the open row and cleaned-up rows make up the recordings |
| ProtocolTheorems.ClassificationInServer | internal/store/postgres.go:122-148 | what each error tells a refused POST, anything having run in between; the default arm is unreachable |
| ProtocolTheorems.WindowsCompared | internal/auth/read.go:76-84 | for a challenge posted in any run, its row open: the store's window lies inside the reader's, and what only the reader lets through is less than a second late |
| ProtocolService.HonestClientServed | internal/httpapi/auth_handler.go:84-246 | from every reachable state a client that asks, has the challenge signed by enough of the account's signers (and the client domain) and posts in time, up to the instant of expiry, gets a token for what it asked |

## Left out

- XDR, strkey, ed25519, SHA-256, HMAC: functions of `Env`; the hypotheses above are all that is said of them.
- BuildChallengeTx: a contract (`Issuer.Built`); its nonce generation and clock are not part of this model.
- Reader.SdkRead: the SDK's reader as docs/sdk-findings.md:24-60 describes it; its source is not part of this model.
- matchSigners' hashing error: the SDK gives it only for an empty network passphrase, which configuration refuses.
- NewIssuer's missing resolver: the resolver is an argument of `Issue` here, so it cannot be missing.
- HTTP, JSON, form and TOML decoding, redirects, timeouts, the router, logging and the status table: plumbing.
- The Horizon fetcher: an oracle from addresses to an account, none, or a failed lookup.
- JWT signing and parsing: library code. Configuration, migrations and `main`: easy members or I/O.
- Mutexes, pools and goroutines: each critical section and each SQL statement is one step.
- Store.Postgres.ConsumeChallenge: runs both statements with nothing in between; their interleaving is in `StoreRuns` and `Protocol`, on values rather than on the class.
- Handlers.GetAuth: one handler alone, as is `Handlers.PostAuth`; aliasing and failures of the database other than a taken key appear only as a crash in `Protocol`.
- RateLimiter.Limiter.DoAllow: token counts are exact integers, so floating-point rounding is not modelled.
- Resolver.Resolver.Resolve: the fetch is one call to an oracle; its timeouts and size limits are not modelled.
- Database times keep full resolution: Postgres rounds to microseconds.
- One clock that never goes back is assumed by `Protocol` and by `Resolver.LiveEntriesStay`; `RateLimiter` and `StoreRuns` allow skew.
