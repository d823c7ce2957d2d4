# Honest Agent: tenant isolation and the three doors, verified

Honest Agent answers questions for many tenants from one set of Postgres tables, one search index and three
entrances: the owner's login, an MCP tool for other programs, and a public widget. This project models the parts of it
that carry state, interleaving or parsing, and proves that tenants stay apart in them.

| module | what it models |
|---|---|
| `TenantTables` | rows, unique keys, the two row-security policies and the four granted statements, as values |
| `TenantMachine` | any number of `tenant_txn` blocks, interleaved step by step over one pool and one database |
| `TenantInvariant` | what every reachable state satisfies |
| `TenantRefinement` | the shared tables behave as one private store per tenant |
| `TenantStatements` | what a statement and a whole body mean: an in-place change of the tenant's own tables |
| `TenantFields` | statements, duplicates and waits column by column, as the tables declare them |
| `Uuids` | the texts that name a tenant, and when two of them name the same one |
| `TenantIsolation` | pool hygiene, noninterference and row ownership over whole runs |
| `TenantAtomicity` | a block that does not commit leaves no trace |
| `TenantTxn` | the pool, the server and `tenant_txn` itself as a class, each method proved to be one step of the machine |
| `TenantInterleaved` | one block in the middle of everybody else's, over whole runs |
| `Migrations` | the SQL files as statements over a schema catalog, and the runner, cut off anywhere |
| `JwksCache`, `JwksThreads` | the signing-key cache, for one caller and for many threads |
| `JwksPublisher` | what the cache needs of the key publisher, exactly |
| `Text`, `Origins` | the parsers of Origin, Referer and Host values |
| `Tokens` | bearer headers, the MCP door's tokens, the owner door's logins |
| `OwnerLogins` | logins over whole runs of the owner door |
| `McpContext` | the MCP middleware and its context variable over interleaved requests and child tasks |
| `VisitorGate` | the widget door: size pre-check, gate, and an arbitrary stateful rate limiter |
| `WeaviateShards` | the chunk index: one shard per tenant |

## How to read it

The core is the tenant machine. Its steps are acquire, BEGIN, `set_config`, one statement, COMMIT, ROLLBACK,
release, and a statement sent through the pool without `tenant_txn`; a block may send a statement at any point, also
before its `set_config` and after its transaction. The step relation writes down the facts about Postgres that the code
rests on. A setting made with `set_config(.., true)` ends with its transaction and leaves the parameter known but empty.
Row security is forced, so the policies apply to every statement. UPDATE checks the old row with USING and the new one
with WITH CHECK. An error aborts the transaction. A writer of a row or key that another open transaction holds must
wait, which in the machine means that its step is not possible yet. The unique indexes see every row, whatever the
policies hide.

Three statements about it carry the rest. `StepRefines` says that every step is the same step of its tenant's private
database and invisible in everybody else's. `StatementMeans` says what one statement does there, without reference to
overlays, policies or locks. The contract of `Database.TenantTxn` puts the two together for the method that the code
calls: with any other blocks open and standing still, it commits exactly when the body, run alone on the tenant's own
rows, is never refused and never has to wait for the same tenant, and then leaves exactly what the body leaves there.
`TenantFields` says what refusals, duplicates and waits mean on the declared columns, and `Uuids` which texts name a
tenant at all. `TenantInterleaved.CommitsExactlyWhen` says the same as the contract with the other tenants' steps
falling between any two of its own.

`where` and `assign` of a statement, the limiter, the published key sets, the clock, the header lists and the text that
counts as a well-formed token are arbitrary parameters.

Where the code and its own words disagree, the model follows the code:

- `backend/src/app/core/db.py:47` says that an unset variable makes every policy evaluate false. `current_setting`
  without a default raises instead, and so does the cast of the empty text it returns on a reused connection. The
  statement fails and so does its transaction. That is still closed: `FailsClosedExactlyWhen` says when it happens and
  that nothing is read or written.
- `backend/src/app/core/origins.py:12` promises None for a value without a host. A host of dots alone gives the empty
  name, which an allowlist would have to contain to admit it. `EmptyHostExactlyWhen` says of which values this is true,
  and `DotsAreTheEmptyHost` of which printed origins.
- `backend/src/app/tenants/gate.py:108` relies on `isdigit` before `int`. Superscript digits and lengths of more than
  4300 digits pass the first and raise in the second (`LengthCrashesExactlyWhen`).
- `backend/src/app/tenants/owner_auth.py:48` looks up again after storing. With several threads an older response can
  be stored in between, and a token is rejected although its key was just fetched (`LateStoreLosesAKey`).
- The migrations call themselves idempotent, and they are, over any database (`SecondRunOnAny`). A run gets through
  exactly when the tables it finds have the columns the index and the policy need; a tenant table then ends sealed
  exactly when it carried no other policy and `app_user`, which 0001 leaves as it finds it, is no superuser and has no
  BYPASSRLS (`SealedExactlyWhen`). Over a `documents` table that does not fit, every table stays as it was
  (`MigrateRepository`).
- `backend/src/app/tenants/owner_auth.py:33-38` gives the cache no condition on the publisher. `InvisibleExactlyWhen` and
  `FetchBoundExactlyWhen` give the exact ones: it cannot be noticed over a history of responses exactly when the history
  only adds, and it bounds the fetches exactly when no dropped kid ever comes back.

## Model

| member | source | states |
|---|---|---|
| TenantTables.KeyDeterminesTenant | supabase/migrations/0003_chunks.sql:22 | Each unique key contains the tenant, so rows of two tenants never share a key. |
| TenantTables.ChangesOwned | supabase/migrations/0002_documents.sql:24-27 | A statement that passes USING and WITH CHECK touches rows of its tenant only, before and after. |
| TenantTables.StrangersDoNotConflict | supabase/migrations/0002_documents.sql:16 | Work of different tenants never waits for each other, on rows or on keys. |
| TenantTables.UniqueAfterCommit | supabase/migrations/0003_chunks.sql:22 | Two transactions kept apart by their locks can both commit without a duplicate key. |
| TenantTables.ApartAfterWrite | supabase/migrations/0002_documents.sql:16 | A write that neither waits nor clashes keeps the two transactions apart, both ways round. |
| Uuids.WrittenUuidIsATenant | supabase/migrations/0002_documents.sql:26-27 | Five groups of 8, 4, 4, 4 and 12 hexadecimal digits, with hyphens between, name the tenant with their letters in lower case. |
| Uuids.TenantTextsExactly | supabase/migrations/0002_documents.sql:26-27 | No other text names a tenant. |
| Uuids.SameTenantExactly | supabase/migrations/0003_chunks.sql:32-33 | Two such texts name one tenant exactly when they differ in the case of their letters at most. |
| TenantInvariant.InvKept | backend/src/app/core/db.py:50-52 | Every step keeps the whole invariant of pool, settings, pending work, locks and unique keys. |
| TenantInvariant.ScopedTenant | supabase/migrations/0002_documents.sql:26-27 | Inside the body the policies evaluate to the tenant the block was entered with, and it sees that tenant's rows only. |
| TenantRefinement.PerformAgrees | supabase/migrations/0002_documents.sql:24-27 | A statement under the policies answers, writes, fails and waits exactly as on the tenant's own tables with only the tenant's own rivals. |
| TenantRefinement.StepRefines | backend/src/app/core/db.py:39-52 | A step of a block is the same step, with the same reply, of its tenant's private database, and changes nobody else's. |
| TenantRefinement.StepEnabled | backend/src/app/core/db.py:39-52 | A step is possible exactly when it is possible on the private database and the pool and id generator can serve it: no other tenant delays it. |
| TenantRefinement.RunRefines | backend/src/app/core/db.py:39-52 | Any interleaving, seen by one tenant, is that tenant's own steps run alone, with the same replies and the same final store. |
| TenantStatements.PerformMeans | supabase/migrations/0003_chunks.sql:30-35 | A statement that does not wait is judged by its effect on the tenant's rows alone: a foreign row in the result is denied, a repeated key is a duplicate, anything else is the plain in-place change, with the touched rows as its row count. |
| TenantStatements.StatementMeans | supabase/migrations/0002_documents.sql:24-29 | In every reachable state a statement shows the tenant's rows, changes them in place, or is refused for the one reason that applies and undoes the block's work; committed rows stay. |
| TenantStatements.CommitPublishes | backend/src/app/core/db.py:50 | A commit makes public exactly what the tenant saw from inside the block. |
| TenantStatements.WaitsForItsOwnTenantOnly | supabase/migrations/0002_documents.sql:16 | A statement waits only when another open block of the same tenant exists. |
| TenantStatements.BodyStep | backend/src/app/core/db.py:50-52 | Statement by statement a block stands where its body, run alone, would stand; it fails exactly where the body is refused. |
| TenantStatements.RefusalIsFinal | backend/src/app/core/db.py:50 | Once a statement of a body is refused, nothing after it can save the body. |
| TenantStatements.HopelessStatement | backend/src/app/core/db.py:44-48 | After a failed statement, or in a body entered with no uuid, every statement fails and the transaction stays failed. |
| TenantFields.RepeatsExactly | supabase/migrations/0003_chunks.sql:22 | Two rows have one key exactly when they agree on (tenant_id, content_hash) as documents or on (tenant_id, document_id, chunk_index) as chunks. |
| TenantFields.NoTwoRowsAgree | supabase/migrations/0002_documents.sql:16 | In every reachable state no two committed rows agree on the columns of a declared key. |
| TenantFields.StatementExactly | supabase/migrations/0002_documents.sql:16-29 | Row by row and column by column: a statement that does not wait is denied exactly when it makes another tenant's row, a duplicate exactly when two rows would then agree on a declared key, and otherwise answers with the rows it picked and leaves every row as it says. |
| TenantFields.InsertExactly | supabase/migrations/0003_chunks.sql:22 | An INSERT of one's own row is a duplicate exactly when the block sees a document with that content hash, or a chunk of that document with that index; otherwise it changes the one row. |
| TenantFields.WaitsExactlyWhen | supabase/migrations/0002_documents.sql:16 | A statement waits exactly when another open block of the same tenant has written a row it picks, or gives or takes away a key it makes, column by column. |
| TenantIsolation.PoolHygiene | backend/src/app/core/db.py:42-52 | In every reachable state an idle connection names no tenant, a connection in a body names exactly its block's, and no connection is in two blocks. |
| TenantIsolation.SessionSettingWouldLeak | backend/src/app/core/db.py:51 | A session-wide setting would leave the tenant on the connection in the pool exactly when the transaction commits; the local one never does. |
| TenantIsolation.FailsClosedExactlyWhen | backend/src/app/core/db.py:44-48 | In every reachable state a statement fails for want of a tenant exactly when its connection's setting is missing or no uuid, which is: outside every block, before a block's set_config, after its transaction, or in a body entered with no uuid. It then reads nothing, writes nothing and disturbs nobody. |
| TenantIsolation.OutsideBodyIsRefused | backend/src/app/tenants/widget_keys.py:42-48 | A statement on a tenant table that is sent through the pool outside a body is refused at once, without waiting, and changes no row. |
| TenantIsolation.Noninterference | supabase/migrations/0003_chunks.sql:22-33 | Removing every step of any set of tenants from any run leaves a possible run in which the others get the same replies and end with the same data. |
| TenantIsolation.OthersAreInvisible | supabase/migrations/0002_documents.sql:16-27 | Two runs in which one tenant takes the same steps look the same to it, whatever the others do and whatever rows they had. |
| TenantIsolation.RowOwnership | supabase/migrations/0002_documents.sql:16-27 | Both unique keys hold in every reachable state; every committed row is its inserter's, and no UPDATE ever moves one to another tenant. |
| TenantAtomicity.AbortLeavesNoTrace | backend/src/app/core/db.py:44-52 | Taking a block that never commits out of any run changes no reply to anybody else and no committed row. |
| TenantTxn.BlockRunRefines | backend/src/app/core/db.py:39-52 | A finished run of one block is a run of its tenant's private database and leaves all others as they were. |
| TenantTxn.Database.Execute | backend/src/app/core/db.py:52 | One statement is one step of the machine, or would wait and changes nothing. |
| TenantTxn.Database.Commit | backend/src/app/core/db.py:50 | COMMIT publishes the pending work, or, after a failed statement, nothing; the setting ends. |
| TenantTxn.Database.Rollback | backend/src/app/core/db.py:50 | An exception leaves the committed rows as they were; the setting ends. |
| TenantTxn.Database.TenantTxn | backend/src/app/core/db.py:39-52 | With other blocks open but standing still: commits exactly when the body alone on the tenant's rows is not refused and never waits; then the tenant has what the body leaves, otherwise no row changes; it waits only for its own tenant; other tenants' data, the pool and the open blocks are as before. |
| TenantInterleaved.BlockStands | backend/src/app/core/db.py:39-52 | However far a block has got, other tenants' steps in between make no difference to its phase, to what it sees or to its tenant's rows. |
| TenantInterleaved.CommitsExactlyWhen | backend/src/app/core/db.py:39-52 | In any run in which its tenant does nothing else, a block that reaches COMMIT commits exactly when its body, alone on the tenant's rows, is not refused; the tenant ends with what the body leaves, otherwise with what it had, whatever other tenants do between any two steps. |
| Migrations.CutOffRun | backend/scripts/apply_migrations.py:23-25 | A run cut off after any statement has found every role, table and type it named, kept every row, and left the schema closed. |
| Migrations.ClosedAtEveryPoint | supabase/migrations/0002_documents.sql:20-29 | After any history of complete and cut-off runs with traffic in between, any granted tenant table has row security on and forced and no policy but the isolation policy, and app_user is not above it. |
| Migrations.OnlyOwnRowsAtEveryPoint | supabase/migrations/0003_chunks.sql:26-35 | At no point of any history can app_user reach or leave a tenant row other than of the tenant its setting, cast to uuid, names; in particular none without a setting. |
| Migrations.OwnRowsAfterAFullRun | supabase/migrations/0002_documents.sql:24-29 | Once a run has got through, app_user holds the four privileges, reaches exactly the rows that the tenant machine's filter shows for its setting, and can leave exactly rows of that tenant. |
| Migrations.FullRunConverges | backend/scripts/apply_migrations.py:23-25 | A full run from wherever earlier runs stopped ends in one and the same schema, with every row still there. |
| Migrations.SecondRunChangesNothing | supabase/migrations/0001_app_user.sql:15-23 | From any reached point, a second full run changes nothing. |
| Migrations.SecondRunOnAny | supabase/migrations/0002_documents.sql:6-6 | Over any database that a full run gets through, a second one changes nothing. |
| Migrations.FullRunOnAny | backend/scripts/apply_migrations.py:23-25 | Over any database a full run gets through exactly when no index has taken a table's name and the tables it finds have ordered index columns and a uuid tenant; and this is what it makes. |
| Migrations.SealedExactlyWhen | supabase/migrations/0002_documents.sql:18-27 | When a full run gets through, a tenant table ends sealed exactly when it carried no other policy before and app_user is neither superuser nor above row security. |
| Migrations.OwnRowsOnlyExactlyWhen | supabase/migrations/0002_documents.sql:23-29 | After a full run app_user touches its own tenant's rows only, exactly when it is under the policies and every other policy it found admits no more than the isolation policy. |
| Migrations.FitsExactly | supabase/migrations/0003_chunks.sql:12-33 | What a run asks of a database, column by column: ordered tenant_id and created_at, or tenant_id and document_id, a uuid tenant, and free names. |
| Migrations.DeclaredKeysAreObeyed | supabase/migrations/0003_chunks.sql:22 | The unique keys that the files declare are the keys that the transactions obey. |
| Migrations.SortedOnce | backend/scripts/apply_migrations.py:23 | A set of file names has one sorted listing. |
| Migrations.SortedIsNumbered | backend/scripts/apply_migrations.py:23 | Sorting the file names gives the numbered order, however the directory is read. |
| Migrations.EveryFileApplies | supabase/migrations/0004_widget_keys.sql:8-14 | File by file, none fails in a run whose whole script succeeds. |
| Migrations.Owner.ExecuteFile | backend/scripts/apply_migrations.py:24 | One file is applied whole, or not at all. |
| Migrations.Owner.ApplyMigrations | backend/scripts/apply_migrations.py:23-25 | The loop applies the longest run of files that succeed, in order, and stops at the first that fails. |
| Migrations.MigrateRepository | backend/scripts/apply_migrations.py:19-28 | All four files apply exactly when what is there fits; from any reached point they do and end in the described schema with every row kept; over a documents table that does not fit, the run stops at the second file and every table stays as it was. |
| JwksCache.JwksKeyResolver.Refresh | backend/src/app/tenants/owner_auth.py:54-60 | The keys are replaced by the bindings of one complete response, or, when the fetch fails or an entry is unusable, not at all. |
| JwksCache.JwksKeyResolver.Get | backend/src/app/tenants/owner_auth.py:44-52 | A cached kid answers without a fetch; a miss fetches once and answers with what a complete response binds, and a failed fetch changes nothing. |
| JwksCache.ParsesExactly | backend/src/app/tenants/owner_auth.py:54-60 | A response is taken exactly when the fetch came through and every entry with a kid is usable, entries without one aside; it then gives each kid its last entry's key. |
| JwksCache.FailedFetchKeepsCache | backend/src/app/tenants/owner_auth.py:48-60 | In any run a failed fetch or an unusable entry fails the call and leaves the cache as it was. |
| JwksCache.OutageKeepsAnswers | backend/src/app/tenants/owner_auth.py:44-60 | Through an outage every cached kid keeps its answer and every other call fails. |
| JwksCache.LastDuplicateWins | backend/src/app/tenants/owner_auth.py:55-59 | A parse binds a kid exactly when some entry carries it, and to the last one's key. |
| JwksCache.CacheIsOneResponse | backend/src/app/tenants/owner_auth.py:60 | In every run the cache is empty or one earlier response, complete. |
| JwksCache.FetchBound | backend/src/app/tenants/owner_auth.py:44-52 | If no kid is ever withdrawn, a run fetches at most once per distinct kid resolved plus once per failing call. |
| JwksCache.FailuresFetch | backend/src/app/tenants/owner_auth.py:44-52 | Every failing call fetched, and no call fetches twice. |
| JwksCache.WithdrawalBreaksTheBound | backend/src/app/tenants/owner_auth.py:44-52 | A run of three calls, two kids and three fetches, over a publisher that drops a kid and brings it back. |
| JwksPublisher.FetchBoundExactlyWhen | backend/src/app/tenants/owner_auth.py:33-52 | Over a history of responses every run keeps the fetch bound exactly when no kid that a complete response dropped is ever served again. |
| JwksPublisher.InvisibleExactlyWhen | backend/src/app/tenants/owner_auth.py:33-52 | Over a history of responses every run answers as a resolver that always fetches exactly when whatever was served for a kid goes on being served. |
| JwksCache.CacheIsInvisible | backend/src/app/tenants/owner_auth.py:33-38 | If the publisher only adds kids, every call of every run answers as a resolver that always fetches. |
| JwksCache.WithdrawnKeyIsStillAccepted | backend/src/app/tenants/owner_auth.py:45-47 | A withdrawn key goes on being accepted while it is cached. |
| JwksThreads.EveryKeyWasPublished | backend/src/app/tenants/owner_auth.py:155-160 | In every interleaving of threads the cache is empty or one complete response, and a key handed out is its kid's binding in some complete response. |
| JwksThreads.ReceivedWereFetched | backend/src/app/tenants/owner_auth.py:56 | Every complete response the cache can hold was fetched by some thread of the run. |
| JwksThreads.NoTwoKeysForOneKid | backend/src/app/tenants/owner_auth.py:44-60 | If no two responses bind a kid differently, no two threads get different keys for it. |
| JwksThreads.UndisturbedRefreshAnswers | backend/src/app/tenants/owner_auth.py:48-52 | A refresh answers from the thread's own response as long as nobody stores in between. |
| JwksThreads.RefreshAnswersFromTheLastStore | backend/src/app/tenants/owner_auth.py:48-52 | Otherwise it finds the kid exactly when the response stored last has it. |
| JwksThreads.LateStoreLosesAKey | backend/src/app/tenants/owner_auth.py:48-51 | An interleaving of two threads rejects a kid that was just fetched, though kids were only added. |
| JwksThreads.AloneIsACall | backend/src/app/tenants/owner_auth.py:44-60 | Undisturbed, a thread answers and leaves the cache as a call of the resolver does, and fetches only on a miss. |
| JwksThreads.FailedFetchStep | backend/src/app/tenants/owner_auth.py:56-60 | A thread whose fetch fails, or finds an unusable entry, gives up and changes nothing else. |
| Text.StripExactly | backend/src/app/core/bearer.py:10 | Stripping takes the whitespace off both ends and nothing else. |
| Text.LowerExactly | backend/src/app/core/origins.py:19 | Capitals become the letters below them; everything else stays. |
| Text.SpaceExactly | backend/src/app/core/bearer.py:10 | The 29 characters that count as whitespace. |
| Origins.OriginRoundTrip | backend/src/app/core/origins.py:11-24 | Whatever the scheme, userinfo, letter case, trailing dots, port and path, the host read back is the one printed, in lower case. |
| Origins.AllowedExactlyByHost | backend/src/app/core/origins.py:27-29 | A printed origin is allowed exactly when its own host is listed. |
| Origins.AuthorityRoundTrip | backend/src/app/core/origins.py:32-45 | The host of a printed Host value is read back in lower case; only a bare null yields none. |
| Origins.ParsersAgree | backend/src/app/core/origins.py:11-45 | The Origin parser and the Host parser read the same host from the same authority, for every authority without brackets. |
| Origins.DotsAreTheEmptyHost | backend/src/app/core/origins.py:22-24 | A printed origin yields the empty name exactly when its host is dots alone. |
| Origins.EmptyHostExactlyWhen | backend/src/app/core/origins.py:14-24 | Of all ASCII values without brackets, exactly those with a scheme and a host of dots alone yield the empty name. |
| Origins.OriginHostExactly | backend/src/app/core/origins.py:11-24 | An ASCII value without brackets and control characters has the host h exactly when it reads scheme, `://`, userinfo, host, port and tail, with h the host in lower case without trailing dots. |
| Origins.SplitTidies | backend/src/app/core/origins.py:21 | Control characters in front, and tabs and line breaks anywhere, make no difference to the split. |
| Origins.NoColonNoHost | backend/src/app/core/origins.py:14-23 | A value without a colon has no host. |
| Origins.EntryMatchesExactlyWhen | backend/src/app/core/origins.py:24-29 | An ASCII allowlist entry without brackets matches some such value exactly when it has no separator, no trailing dot and no capitals before a zone: one with a port, path, userinfo, capitals or trailing dot matches nothing. |
| Origins.OtherEntriesNeverMatch | backend/src/app/core/origins.py:24-50 | Any other entry is the host of no ASCII value without brackets, as Origin or as Host. |
| Origins.ConfiguredOrigins | backend/src/app/mcp/server.py:64-67 | An origin is admitted exactly when one of the configured origins has the same host up to case, however scheme, userinfo, trailing dots, port and path differ. |
| Tokens.BearerExactly | backend/src/app/core/bearer.py:6-13 | A header yields a token exactly when it is the scheme in any case, one blank, and text that is not all whitespace. |
| Tokens.BearerRoundTrip | backend/src/app/core/bearer.py:9-13 | Token text comes back unchanged from its header, whatever blanks surround it. |
| Tokens.MintedTokenOpensExactly | backend/src/app/mcp/tokens.py:33-71 | A minted token opens the MCP door exactly when secret, issuer, audience and tenant are right and the time is within the leeway of ten seconds on both sides. |
| Tokens.McpCallerExactly | backend/src/app/mcp/tokens.py:33-49 | The MCP door takes a header exactly when it is bearer in any case, one blank, and the text of a token signed under HS256 with the door's secret, for its issuer and audience, in time, that names the tenant. |
| Tokens.OwnerAcceptsExactly | backend/src/app/tenants/owner_auth.py:71-124 | A login is accepted exactly when it is genuine under ES256 and the one key that the cache, or without it the complete response just fetched, gives its kid, is current, and names its tenant in app_metadata and its user. |
| Tokens.LoginErrorExactly | backend/src/app/tenants/owner_auth.py:48-52 | A login gets the keys' error exactly when its kid is not cached and the fetch failed or brought an unusable entry; every other rejection is the login's own. |
| OwnerLogins.AcceptedWasPublished | backend/src/app/tenants/owner_auth.py:71-118 | Over any run, whatever the publisher serves: an accepted login is signed with the key that some complete response so far binds to its kid, acts as the tenant of its app_metadata, and is refused by the MCP door at any time under any secret. |
| OwnerLogins.AcceptedWasFetched | backend/src/app/tenants/owner_auth.py:155-160 | In every interleaving of threads, an accepted login is signed with the key that a response fetched in that run binds to its kid. |
| OwnerLogins.PublishedStaysAccepted | backend/src/app/tenants/owner_auth.py:71-88 | While kids are only added, a login whose key some response of the run bound is judged on its claims alone at every later call. |
| Tokens.CachedLoginsAgree | backend/src/app/tenants/owner_auth.py:71-88 | While kids are only added, every login of every run is decided as if the keys were fetched each time. |
| McpContext.HeaderIsLast | backend/src/app/mcp/server.py:110-112 | A header has a value exactly when some line carries it under that name in any case and no later line has the name. |
| McpContext.CheckExactly | backend/src/app/mcp/server.py:110-135 | For every list of headers: let in as a tenant exactly when the last Host line names a listed host, the last Origin line, if any, a listed one, and the last Authorization line carries a genuine token for it; 403 exactly for the first two, 401 exactly for the third. |
| McpContext.RefusedOutright | backend/src/app/mcp/server.py:115-120 | No Host line is 403; no Authorization line, or a token under another algorithm or none, is 401. |
| McpContext.MintedCallerAdmittedExactly | backend/src/app/mcp/server.py:106-135 | From header values to verdict: a caller with a minted token is let in exactly when its host and its origin, if any, are listed and the token opens the door; it is answered 403 exactly when host or origin is not listed, whatever its token. |
| McpContext.Call | backend/src/app/mcp/server.py:106-125 | The inner app sees a tenant exactly when the headers admit it, and never runs for a refused request; on return or exception the variable holds what it held before. |
| McpContext.InvKept | backend/src/app/mcp/server.py:121-125 | Every step of any interleaving keeps each task's variable equal to the tenant verified for the innermost call around it. |
| McpContext.ToolRunsAsItsOwnCaller | backend/src/app/mcp/server.py:51-59 | In every interleaving with child tasks the tool reaches the core only as a tenant whom its own request's headers admit, and refuses without a request. |
| McpContext.ToolUnderRequest | backend/src/app/mcp/server.py:51-59 | A tool run inside an accepted request is recorded for that request and its tenant. |
| McpContext.ToolInChild | backend/src/app/mcp/server.py:51-59 | So is a tool run on a child task spawned inside it, even after the request has returned. |
| McpContext.ToolOnItsOwn | backend/src/app/mcp/server.py:54-57 | A tool run under no request is refused. |
| McpContext.ReachedExactlyWhen | backend/src/app/mcp/server.py:106-125 | A request reaches the inner app exactly when it is no HTTP request or its headers admit some tenant. |
| McpContext.RejectedNeverReached | backend/src/app/mcp/server.py:118-120 | A rejected request never reaches the inner app. |
| McpContext.SameCallsSameContext | backend/src/app/mcp/server.py:121-125 | Whenever a task is back under the same calls the variable holds its earlier value, whatever happened in between. |
| VisitorGate.App.AuthorizeRequest | backend/src/app/tenants/gate.py:40-64 | The gate's checks in their order, with at most one call to the limiter. |
| VisitorGate.App.Handle | backend/src/app/tenants/gate.py:98-127 | The middleware; a context is handed on exactly for an admitted request. |
| VisitorGate.App.HandleAll | backend/src/app/tenants/gate.py:98-127 | Over any sequence of requests the limiter hears from exactly those that pass the path, size, key and origin checks, in order; every admitted request acts as its key's tenant. |
| VisitorGate.MiddlewareAdmits | backend/src/app/tenants/gate.py:62-64 | An admitted request acts as the tenant of its key's row, with the query of its body. |
| VisitorGate.PrecheckAgreesExactlyWhen | backend/src/app/tenants/gate.py:105-114 | With a readable length the middleware decides, and leaves the limiter, as the gate alone would exactly when it does not turn away by length a body that fits. |
| VisitorGate.PrecheckIsAShortcut | backend/src/app/tenants/gate.py:105-115 | A length that reads as the body's changes nothing. |
| VisitorGate.HonestLengthIsAShortcut | backend/src/app/tenants/gate.py:105-115 | Nor does the body's length in decimal. |
| VisitorGate.LengthCrashesExactlyWhen | backend/src/app/tenants/gate.py:106-110 | The pre-check raises exactly on lengths that isdigit accepts and int refuses. |
| VisitorGate.ScreenExactly | backend/src/app/tenants/gate.py:49-79 | The checks ahead of the limiter, in order: size, key, and a source that names a listed host up to case, by Origin if there is one and by Referer only without it. |
| VisitorGate.BrowserRequestExactly | backend/src/app/tenants/gate.py:49-93 | A request from a page on a named host, by Origin or by Referer, gets each of the six statuses, its admission and its one limiter call exactly when the first check that fails says so. |
| VisitorGate.NoSourceIsForbidden | backend/src/app/tenants/gate.py:69-79 | Without Origin and Referer, or with an Origin that names no host, a known key gets 403 and the limiter hears nothing, whatever the Referer says. |
| VisitorGate.QueryExactly | backend/src/app/tenants/gate.py:81-93 | A body yields a query exactly when it is an object whose last query member is text that is not all blanks. |
| VisitorGate.HasQueryExactly | backend/src/app/tenants/gate.py:81-93 | A body is rejected exactly when it holds no such query, with 500 when decoding breaks and 400 otherwise. |
| VisitorGate.SmuggledMembersAreDropped | backend/src/app/tenants/gate.py:88-93 | A member of any other name, anywhere in the body, changes nothing. |
| VisitorGate.LastQueryDecides | backend/src/app/tenants/gate.py:83-93 | Of several query members the last decides, whatever comes before it. |
| VisitorGate.OutcomeDependsOnlyOn | backend/src/app/tenants/gate.py:40-93 | The decision depends on the key's row, the source headers, the size, the limiter's answer and the sanitized query only. |
| WeaviateShards.NamesCollideExactlyWhen | backend/src/app/retrieval/weaviate.py:23-25 | Two ids share a shard exactly when they differ only in hyphens against underscores. |
| WeaviateShards.NamesAreInjective | backend/src/app/retrieval/weaviate.py:23-25 | Among ids without underscores every tenant has its own shard. |
| WeaviateShards.Client.Bootstrap | backend/src/app/retrieval/weaviate.py:39-66 | Makes the collection and exactly the missing shards, and keeps every chunk. |
| WeaviateShards.Client.Insert | backend/src/app/retrieval/weaviate.py:79-92 | Adds to the handle's own shard, or is refused when there is none. |
| WeaviateShards.Client.Count | backend/src/app/retrieval/weaviate.py:94-96 | Counts the handle's own shard, or is refused when there is none. |
| WeaviateShards.BootstrapIsIdempotent | backend/src/app/retrieval/weaviate.py:42-44 | Bootstrapping again changes nothing; the first time adds exactly the missing shards, empty. |
| WeaviateShards.ShardsArePrivateStores | backend/src/app/retrieval/weaviate.py:39-96 | Over every run of bootstraps and inserts each tenant's shard holds what a private store of that tenant would hold. |

## Left out

- TenantStatements.StatementMeans: a statement's reply is judged as a whole. Postgres may report a denied row before a
  duplicate or after, and checks the duplicates of a many-row UPDATE row by row; the model judges the finished change.
- TenantTxn.Database.TenantTxn: the other blocks do not move while the method runs; runs in which they do are the subject
  of `CommitsExactlyWhen`. A statement that would wait for a lock gives the block up, as a cancelled request does;
  in the machine itself it may also be taken later. Deadlock detection and timeouts are not modelled.
- Migrations.ClosedAtEveryPoint: a run may be cut off after any statement, although a file is one implicit transaction;
  the histories are therefore more than the real ones. Checkpoints inside one statement do not exist in the model.
- Migrations.FullRunOnAny: a database is its tables with columns, policies and grants, its indexes and the role. Tables
  that another role owns, views, sequences and types that hold one of the names, domains over uuid, inherited tables,
  memberships of `app_user` and a migration role without the needed rights are not modelled.
- Origins.OriginHost: IPv6 brackets, the NFKC check of `urlsplit` and case folding beyond ASCII are not modelled; the
  lemmas about all values ask for values without them. On brackets `ParsersAgree` is not claimed.
- Tokens.MintedTokenOpensExactly: signing is a tag with algorithm and key, and the clock is a real number; numeric dates
  written as strings and claims of unexpected types count as missing or malformed.
- McpContext.Call: header bytes that do not decode raise before any check and are not modelled.
- WeaviateShards.Client.Bootstrap: one call that names a shard twice makes it once; the server's own answer to a repeated
  name in one request is not modelled.
- The cast to uuid accepts the canonical text form only; Postgres also takes braces and other spacings of hyphens.
- A statement with no tenant fails at once; the planner may skip the setting when it examines no row.
- Savepoints, explicit row ids, `created_at`, the dimension check of `vector(768)` and column defaults.
- Block bodies that call `set_config` themselves. The wrapper leaves the tenant to its caller's discipline there.
- The order of connections in the pool, its sizes and its reset query.
- The owner's seeding of `widget_keys`; the gate reads an arbitrary table.
- JSON text, bytes and Unicode decoding, beyond the three ways a body can turn out.
- The answer core, retrieval, the model provider and the permissive rate limiter, which are stubs.
- HTTP and ASGI plumbing, error titles, settings, logging and tracing.
- Vectors, search and network clients of the index.
- The worker, the page router and the evaluation gate that the documentation plans.
