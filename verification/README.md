# mcptunnels in Dafny

A model of the parts of mcptunnels that hold state or cut text, and proofs of
what they keep. mcptunnels publishes MCP servers that run behind a firewall: an
agent keeps a tunnel to the `tunneld` daemon, which routes public requests to
it, creates short-lived "quick" tenants, and runs a small OAuth server for each
of them. A bridge turns a stdio MCP server into HTTP, and a front does the
reverse.

`dafny verify dfyconfig.toml` checks the whole project.

## How it is laid out

| files | part of the system |
|---|---|
| `Sql`, `StoreApi`, `StoreClient` | the six tables with their foreign keys and cascades, one function per SQL statement; the storage contract as one function of tables and operation; what a caller sees across operations |
| `SqliteStore`, `D1Store`, `Refinement`, `Interrupted` | the local and the remote driver as classes against that contract; the remote one sends statement after statement over a network that may refuse a request or lose its answer; what is left behind when a sequence stops |
| `OAuthWorld`, `OAuthTokens`, `OAuthFlow`, `OAuthSafety`, `OAuthKeys` | authorize, token and resolver handlers as processes that interleave statement by statement with every other store statement, the clock and restarts, and whose own statements may fail or lose their answer |
| `Proxy` | path splitting, the public routing decision and the bearer tokens it lets through |
| `RateLimit`, `IpRate`, `Capacity`, `Counting` | the stored and the in-memory limiter, the cap on live tunnels, and finite-set counting |
| `Bridge`, `BridgeCorrelation`, `BridgeRequests`, `BridgeDiscipline`, `BridgeExit` | handlers, reader, SSE stream, child and exit goroutine of the stdio bridge, freely interleaved |
| `Sse`, `Session` | the event-stream writer and reader, and the front's session recovery with any number of threads |
| `Gateway` | the agents' session registry |
| `TokenSource` | the client's token cache and refresh |
| `Backoff` | the agent's reconnect delays in wrapping 64-bit arithmetic |
| `Text`, `Bytes`, `Base64`, `Jwt` | string cutting, trimming of byte strings, base64url, access tokens |

Objects whose methods update fields are classes (`Store`, `Server`, `IpRate`,
`Gateway`, `TokenSource`); each method is proved equal to a function on the
object's value, and the concurrent system composes those same functions into a
step relation over labels. A run is a list of labels; a label that is not
possible leaves the state alone, so "for every list of labels" means every
interleaving.

## Where the code decides

The model follows the code where its comments say something else.

- `internal/stored1/stored1.go:472-476` says a partial failure never increments
  the counter without the read-back. A failing read-back leaves the increment;
  `Interrupted.InterruptedHitCounts` says exactly when.
- `internal/stored1/stored1.go:505-506` says the key format matches the local
  store's. The prefix already ends in an underscore and a second one is added,
  so `Refinement` relates the drivers up to a renaming of keys.
- `internal/tokencache/source.go:24-25` says concurrent 401s collapse into one
  refresh. A forced refresh never looks at the token it would replace:
  `TokenSource.ForcedRefreshesDoNotCollapse`. What does collapse is a burst of
  unforced calls, and `TokenSource.BurstRefreshesOnceWhen` says when.
- `internal/controlplane/controlplane.go:195` lets a request through when the
  rate counter fails. So the limit of ten bounds only the calls that read a
  count back: `RateLimit.AtMostTenBesidesFailures` is the bound with failures
  and `RateLimit.EveryFailureAdmitsOneMore` shows that it is reached for every
  number of them.
- The bridge routes a line of the child by its id alone and never looks at its
  method (`internal/bridge/bridge.go:133-141`), so a request of the child's own
  under an id in flight is taken for the reply:
  `BridgeExit.AnyLineWithTheIdIsTheReply`.
- `internal/bridge/bridge.go:140` says a buffered send never waits. It does not
  if the child answers each request once; `BridgeExit` gives the run in which a
  second answer blocks the reader for good, and the exact condition under which
  a blocked reader goes on. It also gives the exact runs in which the reader
  sends on a channel that the exit goroutine has closed.
- Doubling the reconnect delay is capped after the doubling, so a cap of 2^62
  nanoseconds or more overflows. `Backoff.DelaysAsIntendedWhen` is the exact
  condition on the configuration.
- The resolver takes any error of the key lookup, not only a missing row, for a
  missing key and generates one (`internal/oauth/oauth.go:30-40`); storing it is a
  no-op if there is a key, and the generated one is cached all the same. So a
  cached OAuth server can differ from the store both when the key was not there
  before the first resolve (`OAuthKeys.KeyRaceCounterexample`) and when it was but
  its lookup failed (`OAuthKeys.FailedLookupCounterexample`).
  `OAuthKeys.CachedServerAgreesWhen` and `OAuthKeys.GeneratedKeyAgreesForLifeWhen`
  are the exact conditions.

## Model

| member | source | states |
|---|---|---|
| Sql.ExecKeepsIntegrity | internal/store/store.go:64-106 | no statement breaks referential integrity: every service, key, client and code row keeps its tenant, and a table scan meets each tenant once |
| Sql.DeletedStaysDeleted | internal/store/store.go:211-249 | after a tenant row is gone, no statement sequence that does not insert its slug again leaves any row of the tenant in any table |
| Sql.LookupsFail | internal/store/store.go:350-473 | with no row of a tenant left, every lookup for it is empty and every insert under it is refused, without changing anything |
| Sql.RowsNeverChange | internal/store/store.go:399-431 | while a tenant lives, no statement changes its row, its signing key or its registered clients |
| StoreApi.SingleMeetsApi | internal/store/api.go:15-70 | for the operations that both drivers run as one statement, issuing it and reading the answer meets the contract, with its sentinel errors |
| StoreApi.DeletesDrop | internal/store/store.go:211-249 | deleting listed tenants one by one, in any order, equals dropping the set with everything under it |
| StoreApi.ClaimGranted | internal/store/store.go:457-473 | the claiming UPDATE affects one row exactly for a live unused code, and the read after it returns the grant |
| StoreApi.WindowIsHour | internal/store/store.go:262-268 | the rate window of a time is the hour it falls in |
| StoreClient.CreatedServiceAnswers | internal/store/store.go:323-392 | for either key prefix, a created service has the mode, time and password it was created with: the password check passes for exactly that password (or any, without one), and the key check for exactly the key handed out |
| StoreClient.CreateServiceWhen | internal/store/store.go:318-347 | a service is created exactly under an existing tenant and a free name, told apart by the two errors, and nothing else changes |
| StoreClient.DeleteTakesOneTenant | internal/store/store.go:211-220 | deleting a tenant takes exactly its rows in every table and leaves every other row unchanged |
| StoreClient.SweepTakesTheExpired | internal/store/store.go:222-249 | a sweep takes exactly the tenants whose expiry has come, with their rows, and lists each once; a tenant without an expiry never goes |
| StoreClient.CountCountsTheEphemeral | internal/store/store.go:251-259 | the live count is of the tenants with an expiry still to come |
| StoreClient.CodeIsConsumedOnce | internal/store/store.go:445-473 | a stored code is given back once with what it was stored with, strictly before its expiry, and then never again |
| StoreClient.FirstKeyStays | internal/store/store.go:394-418 | the first signing key stored for a tenant stays; storing another is no error and changes nothing |
| StoreClient.CreatedRowsAreFound | internal/store/store.go:175-209 | a created tenant and a registered client are found with what they were created with, and cannot be created again |
| SqliteStore.Store.DeleteTenant | internal/store/store.go:213-220 | drops the tenant and its children, and reports whether it existed |
| SqliteStore.Store.DeleteExpiredTenants | internal/store/store.go:224-249 | the loop of deletes removes exactly the expired tenants and returns their slugs in scan order |
| SqliteStore.Store.QuickRateHit | internal/store/store.go:267-283 | prunes windows more than two back, counts the hit and returns the new count |
| SqliteStore.Store.CreateService | internal/store/store.go:323-347 | not found, exists or a new key, as the contract says, with the row inserted only in the last case |
| SqliteStore.Store.ConsumeAuthCode | internal/store/store.go:457-473 | marks and returns a live unused code, and otherwise changes nothing and answers not found |
| SqliteStore.Store.Do | internal/store/api.go:15-70 | every operation of the local driver equals the contract function on tables and result |
| D1Store.Store.Send | internal/stored1/stored1.go:221-255 | one request: refused, run with the answer lost, or run and answered, with the uniqueness error told apart |
| D1Store.ReportedCounts | internal/stored1/stored1.go:401-416 | a positive row count may be reported as any larger number, so only zero can be relied on |
| D1Store.Store.Query | internal/stored1/stored1.go:206-216 | runs the statements in order up to the first failure; exactly those before it took effect, and itself if only its answer was lost |
| D1Store.RanUntilDown | internal/stored1/stored1.go:206-216 | if the database accepts every statement, the query stops exactly at the first failed request, and otherwise completes |
| D1Store.Store.QuickRateHit | internal/stored1/stored1.go:477-501 | meets the contract with no failed request; otherwise keeps exactly the statements before the failure |
| D1Store.Store.CreateService | internal/stored1/stored1.go:529-555 | the folded INSERT ... SELECT tells a missing tenant from an existing service as the two-step form does |
| D1Store.Store.ConsumeAuthCode | internal/stored1/stored1.go:706-746 | claim then read meets the contract; a failure between them leaves the code used and returned to nobody |
| D1Store.Store.DeleteExpiredTenants | internal/stored1/stored1.go:420-450 | list then delete meets the contract; on failure the error comes with the list and a prefix of the deletes |
| D1Store.Store.Do | internal/stored1/stored1.go:401-746 | every operation of the remote driver meets the contract or keeps exactly a prefix of its statements, whatever the network does and however rows are counted |
| Refinement.Commutes | internal/stored1/stored1.go:503-518 | on the contract, renaming agent keys before or after any operation gives the same tables and result |
| Refinement.RemoteKeyInjective | internal/stored1/stored1.go:503-512 | the renaming never merges two keys |
| Refinement.Replay | internal/stored1/stored1.go:206-746 | any sequence of operations on both drivers, with no failed request, gives corresponding results, errors and tables |
| Refinement.ReplayFromEmpty | internal/stored1/stored1.go:206-746 | in particular from two empty databases, with nothing assumed of the tables |
| Interrupted.SweepRemovesPrefix | internal/stored1/stored1.go:420-450 | wherever a sweep stops, it removed exactly a prefix of the tenants it listed, and no tenant that had not expired |
| Interrupted.SweepsWorkThroughTheList | cmd/tunneld/main.go:75-93 | any series of interrupted sweeps at one time works through one list from the front |
| Interrupted.OneCompleteSweepSuffices | cmd/tunneld/main.go:75-93 | one complete sweep anywhere in the series leaves no expired tenant in the tables |
| Interrupted.EachDeleteShrinks | internal/stored1/stored1.go:420-450 | a sweep that gets one delete through strictly shrinks the expired tenants |
| Interrupted.ListedRowStays | internal/stored1/stored1.go:420-450 | whatever runs between listing and deleting, the row met is the listed one if the slug is not inserted again |
| Interrupted.ReusedSlugCounterexample | internal/stored1/stored1.go:420-450 | with slug reuse in between, the delete removes a live tenant |
| Interrupted.InterruptedHitCounts | internal/stored1/stored1.go:470-501 | a rate hit that fails has counted exactly when its second statement took effect |
| OAuthTokens.EveryTokenWasAuthorized | internal/oauth/token.go:19-76 | every token of every run goes back to an earlier authorize step that drew its code, with the same tenant, client and redirect, a challenge equal to the hash of the verifier, and a claim under sixty seconds later in spite of truncated times; the very process that drew it had found the client row with that redirect in its list, put there by an INSERT that succeeded, and had then gone past the password gate in a step when the service had no password or the request carried the right one |
| OAuthFlow.ExchangeIsGrantedWhen | internal/oauth/token.go:19-76 | a token request that gets to take its steps, whatever runs in between, is granted if and only if it is well formed, its code is unused and unexpired when claimed, and its row is then for the same tenant, client, redirect and hash of the verifier; it then issues exactly that token, and otherwise none and is told the first reason |
| OAuthFlow.HonestExchangeIsGranted | internal/oauth/token.go:43-76 | so an exchange with a matching live code is granted if the tenant lives until the row is read |
| OAuthFlow.CodeRowStays | internal/store/store.go:445-473 | a stored code stays as it is, but for being marked used, while its tenant lives |
| OAuthFlow.AuthorizeIssuesWhen | internal/oauth/authorize.go:22-86 | an authorize request that gets to take its steps is redirected with a code if and only if it is well formed, its redirect is registered for its client, the service has no password or the request's passes, and the tenant is there when the code is stored; exactly the code's row is then added, for sixty seconds, and otherwise nothing and the answer names the first reason |
| OAuthFlow.ResolveCachesWhen | internal/oauth/oauth.go:114-136 | a resolve that gets to take its steps ends with a server cached if and only if the tenant is there and its key is found or can be stored; the server has that key and the tenant's expiry, or a day |
| OAuthFlow.FailedReadEnds | internal/oauth/authorize.go:41-62 | a handler whose read is not answered ends with the error of a missing row, and a resolver goes on to generate a key |
| OAuthFlow.FailedWriteEnds | internal/oauth/authorize.go:65-72 | a handler whose write is not answered ends with an error, and the write is not there if it never ran |
| OAuthFlow.LostInsertIsThere | internal/oauth/authorize.go:65-72 | a code whose INSERT ran is stored although its answer was lost |
| OAuthFlow.LostClaimIsThere | internal/oauth/token.go:43-49 | a code whose claim ran is used although its answer was lost |
| OAuthFlow.LostKeyIsThere | internal/oauth/oauth.go:30-40 | a key whose INSERT ran is stored although its answer was lost |
| OAuthFlow.ClockAndRestart | internal/oauth/oauth.go:88-112 | only passing time moves the clock; a restart ends every handler and forgets every cached server, and keeps the store |
| OAuthSafety.TokensComeFromDifferentSteps | internal/oauth/token.go:43-49 | two tokens never go back to the same authorize step |
| OAuthSafety.DeletedTenantIsGone | internal/store/store.go:211-249 | after deletion, and until the slug is created again, no row of the tenant exists in any interleaving, and a token is issued for it only by a handler that had read its code row before the deletion and was about to sign |
| OAuthSafety.CacheIsPermanent | internal/oauth/oauth.go:114-136 | a resolved server stays cached unchanged until a restart |
| OAuthSafety.CachedServerAgrees | internal/oauth/oauth.go:27-51 | from a tenant with expiry and key that is settled (next row), while it lives and no lookup of its key fails, the cached server is the one the store would rebuild, and its tokens are signed with the stored key and expire with the tenant |
| OAuthSafety.FreshTenantSettled | internal/oauth/oauth.go:114-136 | a tenant with expiry and key that nobody has resolved satisfies the condition of the previous row |
| OAuthKeys.CachedServerAgreesWhen | internal/oauth/oauth.go:27-51 | from a tenant with expiry and key that nobody has resolved, in every later state in which it lives and has a server cached, restarts included: the cached server is the one the store would rebuild if and only if the resolver that last filled the cache found the key, or its lookup failed and it drew exactly the stored one |
| OAuthKeys.FailedLookupCounterexample | internal/oauth/oauth.go:30-40 | a run in which expiry and key are there before the first resolve, one key lookup fails, and a key other than the stored one is cached |
| OAuthKeys.GeneratedKeyAgreesForLifeWhen | internal/oauth/oauth.go:27-51 | in every later state until a restart or the tenant's end, a server built with a generated key agrees with the store exactly when no other key had been stored by the time of its INSERT |
| OAuthKeys.KeyIsPermanent | internal/store/store.go:399-405 | while its tenant lives, a stored signing key is never replaced or removed, in any interleaving |
| OAuthKeys.KeyRaceCounterexample | internal/oauth/oauth.go:27-51 | a run that caches a key other than the stored one, when none existed at first resolve |
| Proxy.SplitMake | internal/proxy/proxy.go:134-155 | splitting a made path gives back tenant, service and rest, with an empty rest read as a slash |
| Proxy.MakeSplit | internal/proxy/proxy.go:134-155 | a path that yields a tenant was made from the pieces it yields |
| Proxy.RoutesMadePaths | internal/proxy/proxy.go:57-92 | on a recognised path: over 8 MiB is too large, an unknown service not found, an unprotected one (or any, without a resolver) gets the rest of the path whatever the header, the cache and the clock, and a protected one without a token or a server is refused |
| Proxy.OtherPathsAreNotFound | internal/proxy/proxy.go:57-62 | every other path is not found |
| Proxy.ForwardedTokenWasIssued | internal/proxy/proxy.go:57-132 | in every run, a request that reaches a protected service carries, whatever its header says, a token that the run issued for that very tenant, signed with the cached key, not yet expired, and going back to an authorize step |
| Proxy.IssuedTokenForwardedWhen | internal/proxy/proxy.go:83-132 | a request with an issued token, with or without the word Bearer, to a protected service of a tenant whose cached key signed it, is forwarded if and only if the token is that tenant's and has not expired, and is otherwise answered unauthorized |
| Proxy.DeletedTenantNotFound | internal/proxy/proxy.go:74-90 | a deleted tenant answers 404 in every later state although the resolver still caches its server |
| RateLimit.CountIsExact | internal/store/store.go:262-283 | run one after another, the stored count is the number of hits no later hit pruned, whatever the clock does |
| RateLimit.MonotoneCount | internal/store/store.go:262-283 | with a clock that does not go back, the returned count is the number of hits of that IP in the window |
| RateLimit.HitIsReplayed | internal/store/store.go:262-283 | the contract's operation adds one hit to the history and returns its exact count |
| RateLimit.CallAloneMeetsApi | internal/store/store.go:262-283 | a call of the interleaved model that nobody interrupts does what the contract says |
| RateLimit.WorldMoves | internal/store/store.go:262-283 | only passing time moves the clock, and a call that fails leaves the counters as they are |
| RateLimit.CallsMoveOn | internal/store/store.go:262-283 | whatever others do, a call runs its three statements in turn and of itself fails exactly when the counter it is about to read is gone |
| RateLimit.CounterIsThere | internal/store/store.go:267-283 | which never happens while calls are at most two windows apart |
| RateLimit.AtMostTenReadWithin | internal/store/store.go:267-283 | under any interleaving of the three statements, failures included, with calls at most two windows apart, at most ten calls of one IP and window read back a count within the limit |
| RateLimit.AtMostTenBesidesFailures | internal/controlplane/controlplane.go:193-207 | so at most ten are admitted besides those whose call failed, all of which are admitted; at most ten while none fails |
| RateLimit.EveryFailureAdmitsOneMore | internal/controlplane/controlplane.go:193-207 | the bound is reached: for every number of failures there is a run that admits ten and that many more |
| RateLimit.HourAdmitsTwiceTheLimit | internal/controlplane/controlplane.go:193-207 | any stretch of an hour admits at most twice the limit per IP, besides the calls that failed in it |
| RateLimit.ThreeWindowsCounterexample | internal/store/store.go:267-283 | with calls three windows apart eleven of one window can read back a count within the limit |
| IpRate.IpRate.Allow | internal/oauth/register.go:105-114 | resets all counters in the first call after the window ran out, counts the call, and admits up to the limit |
| IpRate.CountsEveryCall | internal/oauth/register.go:105-114 | the stored count of an IP is exactly the number of its calls since the window last restarted |
| IpRate.AllowsTheFirst | internal/oauth/register.go:105-114 | a call is allowed exactly when it is among the first `limit` of its IP since the window last restarted |
| IpRate.RestartsAfterAnHour | internal/oauth/register.go:105-114 | the window restarts exactly at a call over an hour after it last did |
| IpRate.HourAllowsTwiceTheLimit | internal/oauth/register.go:93-114 | although windows restart at arbitrary times, no hour allows more than twice the limit per IP |
| Capacity.CreateQuickTenant | internal/controlplane/controlplane.go:212-236 | takes the first free slug of ten draws, or fails with nothing written when all ten are taken |
| Capacity.LiveTenantsBounded | internal/controlplane/controlplane.go:77-162 | with n requests in flight, live tenants plus requests past the check never exceed 499 + n, through deletions, sweeps, failures, slug collisions and passing time |
| Capacity.RequestCreatesTenantWhen | internal/controlplane/controlplane.go:77-162 | a request that meets nobody else creates its tenant if and only if fewer than 500 are live and its slug is free; the tenant expires a day later and has the service asked for, and a signing key exactly if it is protected |
| Capacity.TenTries | internal/controlplane/controlplane.go:212-236 | a request that only draws taken slugs tries ten times, changes nothing and gives up |
| Capacity.CollisionCostsATry | internal/controlplane/controlplane.go:212-236 | a taken slug costs one of ten tries and changes nothing else; the tenth ends the request |
| Capacity.WorldMoves | internal/controlplane/controlplane.go:77-162 | only passing time moves the clock, and statements of others run as they are |
| Capacity.QuickTenantsEnd | internal/controlplane/controlplane.go:116-121 | in every run each tenant has an expiry at most a day off |
| Bridge.Server.Register | internal/bridge/bridge.go:205-210 | replaces whatever waits under the id by a fresh one-slot channel |
| Bridge.Server.Deregister | internal/bridge/bridge.go:211-215 | drops the id from the waiting room |
| Bridge.Server.Lookup | internal/bridge/bridge.go:133-139 | finds the channel waiting under a raw id, and none without an id |
| Bridge.Server.Queue | internal/bridge/bridge.go:145-150 | queues a message up to 256, and otherwise drops it |
| Bridge.Server.Send | internal/bridge/bridge.go:263-275 | writes to the child unless it is known to be gone or the write fails |
| Bridge.Server.CloseAll | internal/bridge/bridge.go:91-102 | the loop closes exactly the waiting channels and empties the waiting room |
| BridgeCorrelation.RepliesCarryTheirId | internal/bridge/bridge.go:120-234 | in every run, even with duplicate ids, what a handler returns, has in its channel or is about to get carries its raw id; the waiting room holds only ids in flight, so it is empty once none is left |
| BridgeCorrelation.EveryLineHasOneFate | internal/bridge/bridge.go:120-259 | every JSON line of the child goes to exactly one waiter, the queue or a drop; nothing is lost, doubled or reordered, and the stream drains the queue in the child's order |
| BridgeRequests.ChildReadsInOrder | internal/bridge/bridge.go:263-275 | in every run the child's stdin is, in label order, exactly the messages sent while its exit had not been announced and whose write did not fail |
| BridgeRequests.EachRequestIsSentOnce | internal/bridge/bridge.go:205-221 | a request is sent at most once, with the text it was registered with, and exactly once if its handler waits, has a reply or lost its client |
| BridgeRequests.NobodyGivesUpIdly | internal/bridge/bridge.go:217-234 | a handler fails its request only because writing it failed or the child has exited, and drops it only because its client went away |
| BridgeRequests.HandlersMoveOn | internal/bridge/bridge.go:205-234 | a registered request is sent or turned away, a waiting one takes the answer it was given or leaves with its client, and one that leaves takes its id out of the waiting room |
| BridgeRequests.ReaderMovesOn | internal/bridge/bridge.go:120-151 | in every run, but for a full or closed channel, the reader goes on: it skips a line that is no message, holds a message for the handler waiting under its id and puts it into that handler's channel, and queues any other |
| BridgeRequests.ExitFailsWaiters | internal/bridge/bridge.go:91-102 | when the child exits, every waiting handler without an answer gets to fail its request at once |
| BridgeRequests.DropsExactlyWhenFull | internal/bridge/bridge.go:145-150 | a server-initiated message is dropped exactly when 256 are queued, and else joins the end of the queue |
| BridgeDiscipline.AnswerFindsItsWaiter | internal/bridge/bridge.go:133-221 | if ids are not reused and each request is answered once, the lookup of an answer finds that very request's handler if and only if it is in flight and not failed by the exit |
| BridgeDiscipline.ReaderNeverBlocks | internal/bridge/bridge.go:133-142 | under the same discipline the channel the reader sends on is always empty |
| BridgeExit.BlockedReaderRecoversWhen | internal/bridge/bridge.go:136-234 | a reader blocked on a full channel can go on if and only if that channel's handler can still receive |
| BridgeExit.SecondAnswerBlocksForGood | internal/bridge/bridge.go:136-234 | a second answer to one request, whose client leaves, blocks the reader for ever |
| BridgeExit.ReaderCrashesWhen | internal/bridge/bridge.go:91-142 | the reader sends on a closed channel in exactly the runs where the exit closes a channel it already holds a message for, and it then delivers |
| BridgeExit.ReaderCanCrash | internal/bridge/bridge.go:91-142 | there is such a run: the child answers and exits before the answer is delivered |
| BridgeExit.AnyLineWithTheIdIsTheReply | internal/bridge/bridge.go:133-141 | for every text, a run in which a line with that text and an id in flight is returned as the reply |
| Sse.ReadEvents | internal/stdiofront/stdiofront.go:307-351 | the reading loop writes what the line-by-line definition says, for any text and any wanted id |
| Sse.RoundTrip | internal/bridge/bridge.go:246-249 | reading back the bridge's stream writes each message once, trimmed and in order, up to and including the wanted response |
| Sse.StopsAtTheWantedResponse | internal/stdiofront/stdiofront.go:299-351 | with a wanted id the reader writes every message before the first response with that id, then the response, and stops; if none has it, it writes them all |
| Sse.WritesEverything | internal/stdiofront/stdiofront.go:299-351 | with no wanted id it writes every message |
| Sse.ThroughAll | internal/stdiofront/stdiofront.go:299-351 | with no wanted id nothing is cut off |
| Sse.ReturnsAreIgnored | internal/stdiofront/stdiofront.go:307-351 | a carriage return before a newline anywhere in the stream makes no difference |
| Sse.OtherLinesAreIgnored | internal/stdiofront/stdiofront.go:307-331 | nor does a comment or a line of another field |
| Sse.DataLinesAreJoined | internal/stdiofront/stdiofront.go:307-351 | an event sent in any number of data lines, with or without the space after the colon, is one message: the texts joined by newlines and trimmed |
| Sse.CutStream | internal/stdiofront/stdiofront.go:307-351 | for any byte strings as messages, any wanted id and every cut position in bytes, exactly what is written of a stream that stops there |
| Sse.CutWritesAPrefix | internal/stdiofront/stdiofront.go:307-351 | that is the messages of the whole events, up to the wanted response, and at most one trimmed prefix, in bytes, of the next |
| Sse.CutStopsAtTheWantedResponse | internal/stdiofront/stdiofront.go:307-351 | a cut stream is read as if it ended with the first response with the wanted id and nothing were wanted |
| Bytes.SpacesAreEncoded | internal/stdiofront/stdiofront.go:337-351 | the byte patterns that trimming removes are exactly the UTF-8 encodings of the white-space characters |
| Bytes.TrimAppend | internal/stdiofront/stdiofront.go:307-351 | appended ASCII white space never changes a trimmed byte string, not even after a broken encoding |
| Session.Server.Capture | internal/stdiofront/stdiofront.go:146-182 | caches an initialize message and takes over a session id the upstream hands out |
| Session.Server.Reset | internal/stdiofront/stdiofront.go:218-226 | forgets the session and returns the cached message |
| Session.Server.Store | internal/stdiofront/stdiofront.go:226-241 | adopts the session id of the replayed initialize |
| Session.RecoveryIsBounded | internal/stdiofront/stdiofront.go:144-241 | with any number of threads and any upstream: no request fails for lack of a cached initialize; a thread hands the HTTP client its own message, then at most some thread's initialize request, then at most its own again; and exactly one reply per finished non-streamed request (a token-refreshing transport may put each call on the wire twice) |
| Session.SessionIsTheLatest | internal/stdiofront/stdiofront.go:144-241 | in every run the session id is the one most recently handed out, unless given up since |
| Session.ExpiredSessionRecovers | internal/stdiofront/stdiofront.go:184-241 | after a 404 on a live session the request, the cached initialize and the request again are sent, the new session id is adopted and the last response is what the client gets |
| Session.FailedReplayEnds | internal/stdiofront/stdiofront.go:184-241 | if the replayed initialize fails or is not accepted, the request is not retried, gets one error line, and no session is left |
| Session.FailedRetryEnds | internal/stdiofront/stdiofront.go:184-241 | if the retry fails, the request gets one error line and the new session is kept |
| Session.AnsweredRequest | internal/stdiofront/stdiofront.go:144-200 | a message without such a 404 is sent once; a successful initialize is remembered with its session id, anything else leaves the session alone; a request is answered, a notification never |
| Session.UnreachableGateway | internal/stdiofront/stdiofront.go:144-200 | a message whose first POST fails is not retried; a request gets one error line, a notification none |
| Gateway.SessionKeyInjective | internal/gateway/gateway.go:45 | for tenants without NUL, keys are equal if and only if tenant and service are |
| Gateway.SessionKeyCollides | internal/gateway/gateway.go:45 | the condition is needed: with a NUL in a tenant two pairs can share a key |
| Gateway.Gateway.Register | internal/gateway/gateway.go:116-124 | the new session takes the key and the previous one is handed back for closing |
| Gateway.Gateway.Unregister | internal/gateway/gateway.go:128-134 | removes the session only if it still holds the key |
| Gateway.Gateway.Dial | internal/gateway/gateway.go:91-103 | finds exactly the session registered under tenant and service |
| Gateway.LatestSessionWins | internal/gateway/gateway.go:48-134 | in every run a key maps to its most recently registered session unless that one has unregistered, and every superseded session is closed or owed a close by its successor |
| Gateway.NothingOwedAtRest | internal/gateway/gateway.go:48-134 | once no handler owes a close, every superseded session is closed |
| Gateway.OnlyDeadOrSupersededAreClosed | internal/gateway/gateway.go:48-134 | in every run a session is closed only because it died or a later one took its key |
| Gateway.ConnectionLife | internal/gateway/gateway.go:48-134 | a new session takes its key, the replaced one is closed, and a session that ends leaves and takes its entry with it |
| Gateway.SupersededLeavesQuietly | internal/gateway/gateway.go:126-134 | a superseded session that ends leaves its successor's entry alone |
| TokenSource.TokenSource.LockedToken | internal/tokencache/source.go:53-68 | returns the cached token or refreshes, in the code's order of conditions, as one step function |
| TokenSource.TokenSource.RefreshGrant | internal/tokencache/source.go:76-128 | sends the stored refresh token; success rewrites memory and file, and failure changes neither |
| TokenSource.TokenSource.RunCmd | internal/tokencache/source.go:131-144 | takes over the command's non-empty output in memory only |
| TokenSource.RoundTrip | internal/tokencache/tokencache.go:205-239 | at most two sends, the second only after a 401 with a replayable body, with a newly forced token and if the body could be read again |
| TokenSource.RequestsCarryTheLatestToken | internal/tokencache/source.go:76-128 | over every run of a new source each refresh request carries the most recently rotated refresh token |
| TokenSource.FileHoldsLastSave | internal/tokencache/source.go:114-144 | after every run the file holds the entry as of the last grant that reached it, so memory and file differ only if an unsaved grant or a token command came later |
| TokenSource.CallsReturnTheLatestToken | internal/tokencache/source.go:53-144 | over every run a call that succeeds returns the token most recently obtained, and no call changes URL, endpoint, client or command |
| TokenSource.CallGoesTo | internal/tokencache/source.go:53-72 | a call answers from memory exactly when not forced and the cached token is over thirty seconds from its expiry (and a command's not five minutes old); else it goes to the endpoint, the command or fails |
| TokenSource.GrantSetsExpiry | internal/tokencache/source.go:114-127 | a grant with a lifetime expires that long after it was obtained, and one without keeps the old expiry |
| TokenSource.BurstRefreshesOnceWhen | internal/tokencache/source.go:53-72 | a burst of calls on an expired entry makes exactly one request if and only if the new token is still fresh at the last of them |
| TokenSource.LongGrantOutlastsBurst | internal/tokencache/source.go:70-72 | a lifetime over thirty seconds plus the burst's duration is enough |
| TokenSource.ForcedRefreshesDoNotCollapse | internal/tokencache/source.go:46-51 | two forced refreshes make two requests |
| Backoff.Run | internal/agent/agent.go:77-93 | the k-th sleep of the loop is the jittered k-th delay |
| Backoff.DelaysAsIntendedWhen | internal/agent/agent.go:77-93 | the k-th delay is the smaller of init * 2^k and the cap for every k if and only if init is zero or both are below 2^62 |
| Backoff.WaitsStayNear | internal/agent/agent.go:184-188 | under that condition, at every delay the draw has a positive range and every draw gives a sleep within a quarter of the delay, without overflow |
| Backoff.WaitsAreUniform | internal/agent/agent.go:184-188 | the sleeps within a quarter of the delay are exactly those that can be drawn, each by one draw |
| Backoff.OverflowLeavesNoDraw | internal/agent/agent.go:184-188 | a delay of 2^62 or more doubles to one whose draw has no range, at once or, from the largest delay, in the round after |
| Backoff.DrawsArePossibleWhen | internal/agent/agent.go:77-93 | every round's draw has a positive range if and only if init is zero or start and cap are both below 2^62 |
| Base64.DecodeEncode | internal/oauth/jwt.go:60 | base64url decoding undoes encoding, and encoded text has no dot |
| Base64.AlphabetOrder | internal/oauth/jwt.go:60 | the characters are those of the url-safe alphabet in their order (table 2 of RFC 4648) |
| Base64.EncodeKeepsBits | internal/oauth/jwt.go:60 | n bytes make 4n/3 characters, rounded up, and each three bytes are the same 24 bits as the four characters in their place (section 4 of RFC 4648) |
| Base64.LineBreaksAreSkipped | internal/oauth/jwt.go:60 | a carriage return or newline anywhere in a text does not change what it decodes to |
| Base64.DecodesWhen | internal/oauth/jwt.go:60 | exactly which texts decode, and exactly when encoding the result gives the text back (section 5 of RFC 4648, without padding) |
| Jwt.IndexByte | internal/oauth/jwt.go:156-163 | the loop finds the first occurrence, or -1 |
| Jwt.SplitJwt | internal/oauth/jwt.go:142-154 | the loop cuts at the first two dots, or fails |
| Jwt.SplitExactly | internal/oauth/jwt.go:142-154 | cutting gives three parts if and only if the token is their dot-joining and the first two have no dot |
| Jwt.ToStrings | internal/oauth/jwt.go:165-179 | a string audience is itself, a list keeps its strings in order, anything else is empty |
| Jwt.ValidateSigned | internal/oauth/jwt.go:64-139 | a signed token validates to the claims it was signed with, or to the wrong-issuer or expired error, for every issuer and time |
| Jwt.OtherIssuerRefused | internal/oauth/jwt.go:94-139 | no key and no signing history makes a token valid for another issuer |
| Jwt.AcceptedWasSigned | internal/oauth/jwt.go:94-139 | any accepted text carries the claims of a request signed with that key for that issuer and not yet expired |
| Jwt.MalformedWhen | internal/oauth/jwt.go:94-98 | a token is malformed exactly if it cannot be cut at two dots |
| Jwt.RefusedFor | internal/oauth/jwt.go:99-130 | of a token with three parts, signature encoding, signature, payload, issuer and expiry are checked in that order, each with its own error |

## Left out

- Sockets, WebSocket, yamux, TLS, process spawning, logging, flags, YAML, the
  HTML form and the documentation site: no state of their own worth proving.
- Cryptography: digests, password hashes and the PKCE hash are one-to-one
  constructors, so bcrypt's 72-byte limit is not modelled; a signature verifies
  exactly when the key holder made it.
- JSON: `Jwt` assumes only that reading back a written claim set gives it back;
  strings are text, so bytes that are not valid UTF-8 are not modelled.
- The remote driver's column decoders (`timeCol`, `optTime`, `strCol`, `intCol`,
  `truncate`, internal/stored1/stored1.go:268-332): rows arrive typed.
- Store errors other than not-found in the router (internal/proxy/proxy.go:74-81)
  and in the password check (internal/oauth/authorize.go:90-93): the store answers.
- Random slugs, client ids and keys are label values and may repeat; random
  authorization codes never do.
- The rate limits of the token and registration endpoints are proved about
  `IpRate` alone and not composed with the OAuth runs.
- `handleDelete`, the metadata endpoints, `WellKnownHandler`, `NormalizeURL`,
  the token cache's file handling and the agent's header stripping: they hold no
  state of interest.
- The front's long-lived GET stream, its drain and its closing DELETE
  (internal/stdiofront/stdiofront.go:91-114, 246-294, 372-390), which touch the
  session only by reading it.
- OAuthTokens.EveryTokenWasAuthorized: the handler reads the service row once to
  see whether there is a password and again to check it; the gate is the one it
  saw in the read it went past on.
- Bridge.Server.Send: the message is written whole or not at all; partial writes
  and the line-length limit of the reader are not modelled.
- BridgeDiscipline.ReaderNeverBlocks: holds for clients that do not reuse
  outstanding ids and a child that answers a request once and gives no other
  line, such as a request of its own, an id in flight; `BridgeExit` shows what
  happens otherwise.
- BridgeDiscipline.AnswerFindsItsWaiter: the same.
- RateLimit.AtMostTenBesidesFailures: a call cut off by the daemon's own end
  counts as failed.
- Proxy.ForwardedTokenWasIssued: the resolver's own store statements run before
  the check, as steps of the run; a store error in the service lookup is not
  modelled.
- Capacity.LiveTenantsBounded: the request handler is the only creator of
  tenants, and times are whole seconds.
- TokenSource.BurstRefreshesOnceWhen: the first refresh succeeds, is saved and
  grants a positive lifetime; a token source without a file is not modelled.
- Session.RecoveryIsBounded: says nothing of replies to responses that are event
  streams and end without a match, which the code does not answer.
