# data-mate: a model of its hard promises

data-mate gives local agents read-only access to PostgreSQL through a service that
keeps credentials in an encrypted vault. This project models the parts of it that
promise something about every input, every run or every interleaving, and states those
promises as theorems about the model. `dafny verify dfyconfig.toml` checks all of it.

Each module follows one component:

- `SqlGuard`: the read-only check of one SQL statement. A loop over an explicit task
  stack, with CTE-name tables that tasks share and change, decides the same as
  recursive lexical scoping of `WITH` and `WITH RECURSIVE` (PostgreSQL 16 manual,
  section 7.8). `SqlScopes` reads the same rules a second way, by the names that a tree
  leaves free.
- `ResultBudget`: the executor's running byte count for an envelope that holds the JSON
  of a result twice, once string-escaped (RFC 8259, section 7).
- `ResultTypes`: types with possibly cyclic domain and array links, bounded array
  dimensions, and decoding of nested arrays. `ResultValues`: what the decoded values are.
- `WireFrames`: the tracker of PostgreSQL message headers (PostgreSQL 16 manual, section
  55.7), which sees the stream in chunks.
- `CatalogPaging`: keyset pages of tables and objects and their signed cursors.
- `ConnectionPool`, `PoolConservation`, `PoolRules`, `PoolRegistry` and `PoolObjects`:
  pools of at most eight connections, their registry and their single-flight account
  approval. The first module is a state machine whose steps are the sections under the
  driver's mutex, the second says what becomes of every connection, the next two state
  exactly who is served, from which pool, and when a pool is retired, and the last holds
  the objects that these sections update. The methods of one pool compute the state
  machine's functions; those of the registry state their effect on the registered pools.
- `LeaseQueue`: the process-local reader/writer queue with its broadcast channel.
- `StateLeases`: leases over three lock files across processes, while the files may be
  unlinked and recreated. `LeaseRules`: what callers can count on besides exclusion.
- `InstallationDisk`, `Initialization`, `PurgeStore`, `PurgeRules`, `LateOpens` and
  `InstallationStore`: identity checks, first initialization and the whole uninstall with
  its terminal purge, with a stop allowed between any two file-system steps. The first
  module has the steps as plans, the next two state what every prefix of a plan keeps,
  `PurgeRules` says exactly what opens and in which order things go, `LateOpens` lets
  other processes open the directory between the last unlinks, and the last module holds
  the store that carries plans out.
- `ProfileDatabase`: the transaction that publishes profiles, ciphertext and generation.
- `Credentials` and `CredentialVault`: patches, sealing, unlocking and applying a
  mutation. `KeysetLifecycle`: the keyset row across processes and faults.
  `KeysetProgress`: what its steps achieve when nothing fails.
- `SessionGuard`: the MCP session between client and SDK (JSON-RPC 2.0, sections 4 and 5).
  `SessionRules`: which lines are let through, and what the others are answered with.
- `JsonKeys`: the duplicate-key and depth check over a token stream (RFC 8259, section 4).
- `ShellBlock`: the marked block in shell startup files and the quoting inside it.
- `Runs`: induction over runs, shared by the state machines.

Concurrency is a state and atomic steps; every theorem about runs covers all
interleavings. Crashes and errors are stops between any two steps. Files, tables, IDs,
clocks, key providers, parsers and codecs enter as inputs or as steps that may fail.
Encryption, signatures and digests are ideal: they satisfy their algebraic laws only.

Where the code and its own description part ways, the model follows the code:

- `Open` does not refuse every directory under purge. While the identity record is still
  there, the receipt is not, and the state locks exist, it returns a store; every lease
  of that store is then refused (`PurgeStore.OpenWhilePurging`, `OpenAcceptsPurging`).
- The frame tracker drops the rest of a chunk after a length below four, so its answer
  can depend on how the stream was cut. `WireFrames.CuttingIrrelevantExactly` says when.
- Uninstalling restores a startup file exactly when the file was empty or ended with a
  newline; otherwise the last line stays ended, and a file that did not exist stays
  behind empty (`ShellBlock.RestoredExactly`, `UninstallRestores`).
- A cap that equals the exact size of a result may still truncate it, since counters are
  reserved at full width (`ResultBudget.ExactCapTruncates`).
- A request with an empty method and an ID that is still pending is answered with that
  ID, so the uniqueness of answers is about SDK responses (`SessionGuard.RepeatedId`).
- A commit that a deferred foreign key refuses is reported as an unknown outcome, although
  nothing changed (`ProfileDatabase.PublicationRefused`, `ProfileStore.Publish`).
- A pending installation that was never established cannot be uninstalled: the uninstall
  clears its pending flag, and then finds the identity stale
  (`InstallationStore.Store.Uninstall`, `Removable`).
- Of the conditions under which a validation approves its pool, an open driver, the pool's
  context and its generation are implied by the others (`PoolRules.PassesExactly`).

## Model

| member | source | states |
|---|---|---|
| SqlGuard.CheckTree | internal/database/postgres/sqlguard/guard.go:44-126 | the task-stack loop ends on every tree and accepts exactly the trees that recursive lexical scoping accepts: every unqualified relation names a CTE in scope, and no DML, INTO or locking clause occurs anywhere |
| SqlGuard.Check | internal/database/postgres/sqlguard/guard.go:20-126 | a query is accepted exactly when its text is valid, it is one SELECT, SHOW or EXPLAIN of a SELECT, and its tree is acceptable under no names |
| SqlGuard.OpenScope | internal/database/postgres/sqlguard/guard.go:68-95 | a SELECT gets a private table: the names visible outside, plus all its CTE names exactly under WITH RECURSIVE; refused exactly when some entry is no CTE over a SELECT |
| SqlGuard.EnterSelect | internal/database/postgres/sqlguard/guard.go:68-124 | an error means the SELECT is unacceptable; otherwise the pushed tasks ask for exactly what the SELECT needs, over tables shared with no older task |
| SqlGuard.PendingCtes | internal/database/postgres/sqlguard/guard.go:121-124 | pushed visits and binds check entry i with exactly the names bound before it, and leave all names bound for the main part |
| SqlGuard.PendingFrame | internal/database/postgres/sqlguard/guard.go:44-57 | what a stack still asks for depends only on the tables its own tasks refer to, so a bind affects nobody else |
| SqlGuard.WorkVisit | internal/database/postgres/sqlguard/guard.go:50-125 | replacing a visit by the tasks it pushes leaves strictly less work, which is why the loop ends |
| SqlGuard.ScopeMonotone | internal/database/postgres/sqlguard/guard.go:97-105 | more names in scope never turn an acceptable tree down |
| SqlGuard.RecursiveAcceptsMore | internal/database/postgres/sqlguard/guard.go:76-86 | marking a WITH clause RECURSIVE keeps every acceptable SELECT acceptable |
| SqlScopes.AcceptedByFreeNames | internal/database/postgres/sqlguard/guard.go:44-126 | a tree is acceptable exactly when nothing anywhere in it writes, locks or is unknown and every name that it leaves free, by a second definition that passes no scopes down, is in scope |
| SqlScopes.SelectWithin | internal/database/postgres/sqlguard/guard.go:68-95 | the free names of a SELECT are in scope exactly when those of its parts are, with earlier siblings bound in a CTE body, or all of them under RECURSIVE, and every name bound in the rest |
| ResultBudget.TwiceConcat | internal/database/postgres/executor.go:79-82 | the size of JSON text plus its string-escaped copy is additive over concatenation, so a prefix never has to be encoded again |
| ResultBudget.PayloadParts | internal/database/postgres/executor.go:71-82 | the payload of a result is the empty envelope, plus both copies of the rows, plus twice the digits of its counters, plus the truncation mark |
| ResultBudget.CostIsGrowth | internal/database/postgres/executor.go:169-184 | what the loop charges for a row, commas included, is exactly what the reserved envelope grows by |
| ResultBudget.SlackExact | internal/database/postgres/executor.go:97-107 | the reserved size exceeds the true payload by exactly twice the unused digits of row count and elapsed time, plus two when truncated |
| ResultBudget.SlackNonnegative | internal/database/postgres/executor.go:97-107 | that excess is never negative for a row count within the limit and a 64-bit elapsed time |
| ResultBudget.Execute | internal/database/postgres/executor.go:97-191 | the loop with the running count returns what the simple executor returns that measures every prefix afresh, and closes the connection in the same cases |
| ResultBudget.SimpleIsLongest | internal/database/postgres/executor.go:139-191 | the rows returned are the longest prefix of the server's rows that fits row limit and cap, marked truncated exactly when rows are missing |
| ResultBudget.FailsExactly | internal/database/postgres/executor.go:139-191 | a query fails exactly when a row of the longest fitting prefix or the next one was cancelled or does not decode, or closing the fully read result fails; the connection stays open exactly when everything was read |
| ResultBudget.PayloadWithinCap | internal/database/postgres/executor.go:97-191 | with a cap, every result has a true payload of at most the cap |
| ResultBudget.ExactCapTruncates | internal/database/postgres/executor.go:97-105 | a cap of exactly the complete result's size still truncates, unless every counter is at its widest |
| ResultTypes.Representation | internal/database/postgres/result_types.go:90-115 | ends on every type map, cyclic ones included, succeeds exactly when the chain of links reaches a leaf, and then gives that leaf's encoding |
| ResultTypes.GoesRound | internal/database/postgres/result_types.go:91-93 | a chain that meets a type twice reaches no leaf at any length |
| ResultTypes.Shorter | internal/database/postgres/result_types.go:123-132 | if the representation exists, following a base or element link keeps it and shortens the chain by one |
| ResultTypes.SetDimensions | internal/database/postgres/result_types.go:180-192 | accepts exactly up to six lengths, each between zero and the limit, whose leading products all stay within the limit |
| ResultTypes.DivisionTest | internal/database/postgres/result_types.go:186-189 | the division test rejects exactly when the product would pass the limit, so no product larger than the limit is formed |
| ResultTypes.Decode | internal/database/postgres/result_types.go:116-172 | ends on every type map and gives the recursive meaning of the value: null, scalar, server text or a list shaped by its dimensions; fails exactly where that meaning is undefined |
| ResultTypes.Nested | internal/database/postgres/result_types.go:150-171 | one call consumes exactly the product of its dimensions from the captured index and shapes the decoded elements accordingly |
| ResultTypes.Item | internal/database/postgres/result_types.go:154-163 | one row or one element consumes exactly the product of the dimensions below it |
| ResultTypes.ShapeKeepsOrder | internal/database/postgres/result_types.go:150-171 | flattening the nested lists gives back all elements in row-major order, and the outer list has the first dimension's length |
| ResultValues.ArrayMeans | internal/database/postgres/result_types.go:135-172 | an array decodes exactly when its dimensions are accepted and all its elements decode, to what these mean in row-major order, and never to more elements than the text has characters and one |
| ResultValues.AsAnnounced | internal/database/postgres/result_types.go:90-134 | every scalar at any depth is of the type that its column's chain of links ends in, decoded or left as text just as the announced encoding says |
| ResultValues.DomainIsBase | internal/database/postgres/result_types.go:123-127 | a domain decodes as its base type does |
| ResultValues.LeafMeans | internal/database/postgres/result_types.go:128-133 | a type without links is decoded by its own decoder, or kept as the server's text |
| ResultValues.RefusedTexts | internal/database/postgres/result_types.go:116-122 | a null is a null of any type, and no text decodes that is invalid or whose type's chain does not end |
| WireFrames.ChunkedRefinesWhole | internal/database/postgres/wire.go:31-57 | for every stream whose lengths are at least four and every way of cutting it, the tracker reports authentication exactly when the whole-stream parse meets an 'R' header |
| WireFrames.CuttingIrrelevantExactly | internal/database/postgres/wire.go:45-54 | every cutting of a stream gives the whole-stream answer if and only if no complete header has a short length, or an 'R' header came first, or no byte 'R' with four bytes after it follows the short header |
| WireFrames.FeedRefines | internal/database/postgres/wire.go:31-57 | reading a chunk and then the rest sees what reading both at once sees; a short length can only hide later headers |
| WireFrames.CutBeforeAuth | internal/database/postgres/wire.go:51-53 | after a short length, cutting right before a byte 'R' makes the tracker disagree with the whole-stream parse |
| WireFrames.CuttingCanMatter | internal/database/postgres/wire.go:45-54 | a ten-byte stream without an 'R' header, which read at once stays unauthenticated and cut behind its short header does not |
| WireFrames.HarmlessStays | internal/database/postgres/wire.go:34-55 | where no later byte can begin a complete 'R' header, no chunk makes one appear |
| WireFrames.FrameReader.Read | internal/database/postgres/wire.go:31-57 | the loop over one chunk moves header buffer, counters and flag exactly as the chunk function does |
| CatalogPaging.PagesCoverCatalog | internal/database/postgres/catalog.go:107-142 | whatever the page sizes, following the positions from the start ends and yields the filtered catalog in key order |
| CatalogPaging.ListedExactly | internal/database/postgres/catalog.go:109-111 | that listing is strictly ordered and holds exactly the entries that the filters let through, so each occurs once |
| CatalogPaging.AfterContinues | internal/database/postgres/catalog.go:109-111 | asking for what comes after row k of an answer gives the rows from k+1 on |
| CatalogPaging.ClientSeesCatalog | internal/database/postgres/objects.go:48-98 | a client that sends back each cursor it was given is served the whole filtered catalog, in no more requests than it has entries, and in one if it has none |
| CatalogPaging.CursorFits | internal/database/postgres/catalog.go:40-66 | a cursor for names of up to 63 bytes takes at most 1927 characters, below the bound of 2048, even if every byte is escaped sixfold |
| CatalogPaging.CursorRoundTrip | internal/database/postgres/catalog.go:54-82 | every cursor issued for valid names decodes to the position it was issued for |
| CatalogPaging.CursorBound | internal/database/postgres/catalog.go:60-82 | a cursor is accepted only if this driver signed it for the same tool, filters, connection, revision and epoch |
| CatalogPaging.ListTables | internal/database/postgres/catalog.go:85-147 | reading one row more than the page and cutting it off answers with the page and the cursor of its last row exactly when more rows follow |
| CatalogPaging.ReadRows | internal/database/postgres/objects.go:69-98 | the loop stops at the row after the page before weighing it, and reports the limit exactly when the page's own items exceed it |
| CatalogPaging.ListObjects | internal/database/postgres/objects.go:34-104 | invalid sizes and filters, stale cursors and the metadata limit are reported; otherwise the answer is the page and its continuing cursor |
| CatalogPaging.ServedExactly | internal/database/postgres/objects.go:34-104 | a request is refused exactly for its size or filter, for a cursor that this driver did not issue for this listing, or for a page over the limit, and otherwise answered with the next rows and a cursor if more follow |
| CatalogPaging.NameLessExactly | internal/database/postgres/catalog.go:109-111 | names are ordered by their first different byte, a shorter name before its continuations |
| CatalogPaging.KindsInOrder | internal/database/postgres/objects.go:64-67 | the order of kinds is that of their spelling |
| ConnectionPool.OwnershipBounded | internal/database/postgres/driver.go:205-343 | in every run a pool owns at most eight connections, idle, checked out or being dialled; its users and tokens equal the outstanding callers; at most sixteen pools are registered |
| ConnectionPool.CountsKept | internal/database/postgres/driver.go:205-343 | every step keeps those counts and bounds |
| ConnectionPool.ExclusiveKept | internal/database/postgres/driver.go:254-319 | every step keeps each connection in one place: one idle list or one operation, of its own pool |
| ConnectionPool.NothingLeaks | internal/database/postgres/driver.go:258-298 | once every operation is over, no pool counts a user, a slot or a validation |
| ConnectionPool.SingleFlight | internal/database/postgres/driver.go:65-101 | at most one validation runs per pool, and a waiter waits for a verdict that is decided or still has its runner |
| ConnectionPool.ApprovalStands | internal/database/postgres/driver.go:65-101 | a caller whose checkout succeeded sees its pool approved until its connection was cleaned up or the pool is no longer registered |
| ConnectionPool.InheritedApproval | internal/database/postgres/driver.go:50-75 | an approval taken over without validation was granted once and backed by a live connection at every moment since |
| ConnectionPool.ApprovedMeans | internal/database/postgres/driver.go:50-101 | an approved pool is registered and has a live connection, and while one is really alive the approval has been backed since it was granted |
| ConnectionPool.VouchedMeans | internal/database/postgres/driver.go:50-63 | whenever a pool counts as vouched for, some earlier step granted the approval and a live connection has backed it ever since |
| ConnectionPool.ApprovalsKept | internal/database/postgres/driver.go:50-101 | every step keeps what approval, generation and pending verdicts mean for each pool and operation |
| ConnectionPool.RetiredForGood | internal/database/postgres/driver.go:161-178 | a retired pool is never registered again and never regains an idle connection |
| ConnectionPool.InvAlways | internal/database/postgres/driver.go:205-343 | the whole invariant holds at every moment of every run from the empty driver |
| PoolConservation.NoConnectionLost | internal/database/postgres/driver.go:151-343 | at every moment each connection ever dialled is idle in a registered pool, held by an operation or closed, or an earlier step retired its pool and gave it to the retirer |
| PoolConservation.CountersSuffice | internal/database/postgres/driver.go:258-298 | an operation that leaves its pool is counted there and one that gives a slot back holds one, so neither counter can pass below zero |
| PoolRules.ServedWasVetted | internal/database/postgres/driver.go:65-101 | nobody is served without a passed account check: the approval behind every running operation, inherited, awaited or its own, was granted by a check of its pool that passed |
| PoolRules.ApprovedWasVetted | internal/database/postgres/driver.go:88-98 | every approval of a pool goes back to an account check of that pool that passed |
| PoolRules.GrantsOnly | internal/database/postgres/driver.go:88-98 | no step but the end of a passed account check, with context, connection and registration intact, ever grants approval |
| PoolRules.ValidationDecides | internal/database/postgres/driver.go:88-101 | a check that ends approves its pool and serves its caller exactly when it passed, context and connection have not ended and the pool is registered; otherwise the pool is unapproved and the caller returns its connection |
| PoolRules.PassesExactly | internal/database/postgres/driver.go:92-94 | the further conditions that the code tests, an open driver, the pool's context and its generation, follow from these |
| PoolRules.HeardWhatWasFound | internal/database/postgres/driver.go:75-83 | whoever waited for a check is served if that check passed and sent away if it did not |
| PoolRules.AskExactly | internal/database/postgres/driver.go:65-87 | an approval request is served at once exactly when the pool is approved and has a connection alive; otherwise it waits for the check in flight or runs one |
| PoolRegistry.CheckoutExactly | internal/database/postgres/driver.go:217-250 | a checkout is refused exactly when the driver is closed or it would need a new pool and sixteen are registered that are all in use; otherwise it joins the pool on file for these credentials or a new one |
| PoolRegistry.RetiredExactly | internal/database/postgres/driver.go:161-204 | a registered pool is retired exactly by shutdown, by invalidation, by other credentials, or, without users, by its timer or to make room; no timer or eviction retires a pool in use |
| PoolRegistry.HealthyReused | internal/database/postgres/driver.go:258-318 | a healthy open connection goes back to its registered pool, and the next operation with a slot takes just that one |
| PoolRegistry.UnhealthyClosed | internal/database/postgres/driver.go:261-270 | an unhealthy connection leaves the live set before it is closed, and is never given back |
| PoolObjects.LivePool.Forget | internal/database/postgres/driver.go:51-63 | forgets exactly the cleaned connections, and the approval with the last of them, under a new generation |
| PoolObjects.LivePool.Pick | internal/database/postgres/driver.go:307-318 | takes idle connections from the end until one is open, as the state machine's step does |
| PoolObjects.LivePool.Ask | internal/database/postgres/driver.go:66-88 | joins the live set and inherits, waits or becomes the one validator, which records the generation |
| PoolObjects.LivePool.Decide | internal/database/postgres/driver.go:90-100 | publishes the verdict after forgetting cleaned connections and ends the validation |
| PoolObjects.LivePool.Leave | internal/database/postgres/driver.go:271-294 | gives a healthy connection back to a registered pool's idle list, or to the caller to close |
| PoolObjects.Driver.RetireLocked | internal/database/postgres/driver.go:161-178 | removes the pool, revokes its approval under a new generation and hands over its idle connections |
| PoolObjects.Driver.Close | internal/database/postgres/driver.go:193-204 | retires every registered pool and admits no checkout afterwards |
| PoolObjects.Driver.FindIdle | internal/database/postgres/driver.go:230-236 | finds a pool without users if there is one |
| PoolObjects.Driver.Checkout | internal/database/postgres/driver.go:217-250 | refuses only when closed or full of pools in use, evicts only a pool without users, and never serves a profile from a pool of other credentials |
| LeaseQueue.Exclusion | internal/config/locks.go:17-79 | in every run there is never a second writer nor a writer with a reader, and `waiting` and `readers` equal the queued writers and admitted readers |
| LeaseQueue.WritersFirst | internal/config/locks.go:48-64 | no step admits a reader while a writer waits |
| LeaseQueue.AdmittedExactly | internal/config/locks.go:39-65 | a caller that arrives or wakes is admitted exactly when nobody holds the queue, or for a reader when no writer holds it or waits; so readers share |
| LeaseQueue.NoWakeupLost | internal/config/locks.go:25-58 | a blocked caller that may enter, by who holds and waits, has been signalled, and its next pass admits it |
| LeaseQueue.NeverStalls | internal/config/locks.go:25-79 | when nobody holds the queue and somebody is blocked, some blocked caller is admitted by its next pass |
| LeaseQueue.InvKept | internal/config/locks.go:17-79 | every acquire, wake, cancellation and release keeps the counts and the channel invariant |
| LeaseQueue.RwQueue.TryOnce | internal/config/locks.go:39-65 | one pass of the loop changes the fields and decides as the step function does, cancellation included |
| LeaseQueue.RwQueue.Acquire | internal/config/locks.go:31-65 | the first pass counts a writer as waiting before it decides |
| LeaseQueue.RwQueue.Release | internal/config/locks.go:66-78 | only the first release of a ticket has an effect, and it signals |
| StateLeases.WriteLeaseAlone | internal/config/locks.go:203-293 | however lock files are unlinked and recreated, a write lease that passes its check is the only state lease of any process that does |
| StateLeases.LifecycleAlone | internal/config/lifecycle.go:21-50 | two lifecycle leases never both pass their check |
| StateLeases.StaleWaiterRefused | internal/config/locks.go:119-178 | in every run, once a lock file has lost its name, whoever recreates the name and however often, it never has the name again, no waiter is ever granted it, and a lease that still holds it never passes its check |
| StateLeases.NoDeadlock | internal/config/locks.go:203-243 | with the order lifecycle, queue, gate, state, whenever a call is under way some caller can take its next step or holds at rest |
| StateLeases.NeverDeadlocked | internal/config/cleanup.go:66-104 | this holds at every moment of every run, cleanup leases under a lifecycle lease included |
| LeaseRules.UndisturbedLease | internal/config/locks.go:203-293 | a request with nobody in its way goes through every step to a lease that passes; for a reader other readers are not in the way and keep their leases |
| LeaseRules.UndisturbedLifecycle | internal/config/lifecycle.go:52-104 | likewise a lifecycle request |
| LeaseRules.GrantedPassing | internal/config/locks.go:262-293 | a state lease is given out only at a moment at which every file it holds still has its name |
| LeaseRules.OneAtATime | internal/config/locks.go:203-243 | in every run at most one caller of a process is past its lifecycle queue, and a writer past its state queue is there alone |
| LeaseRules.WritersGoFirst | internal/config/locks.go:48-64 | a reader enters the state queue only when no writer of its process holds it or waits |
| LeaseRules.GateAlone | internal/config/locks.go:262-293 | no two callers that hold a gate both pass their check |
| LeaseRules.ReleasesFree | internal/config/locks.go:295-317 | giving up a lease takes its caller out of the way of the others |
| PurgeStore.PurgeConverges | internal/config/cleanup.go:154-211 | from any recoverable disk, after any number of stopped retries and opens in between, the disk is recoverable or free of owned names, foreign files are untouched, and one full retry leaves exactly what was never the installation's |
| PurgeStore.RetryStoppedAnywhere | internal/config/cleanup.go:154-211 | stopping a retry after any step, by crash or by error, leaves a valid purging identity or no owned name |
| PurgeStore.RetryFinishes | internal/config/cleanup.go:154-211 | a retry that is not stopped removes every owned name and nothing else |
| PurgeStore.FirstPurgeStoppedAnywhere | internal/service/cleanup.go:28-150 | stopping the first uninstall anywhere leaves an ordinary installation with its identity, locks, database and known hosts, lacking at most service and registration records and siblings and with at most its pending flag cleared; or it is past the durable flag and recoverable |
| PurgeRules.FirstPurgeFinishes | internal/service/cleanup.go:28-150 | a first uninstall that is not stopped removes every owned name and nothing else |
| PurgeRules.RevokedLast | internal/service/cleanup.go:84-141 | wherever the first uninstall is stopped, access is revoked only after all service and registration records have gone, and no journal outlives its database |
| PurgeStore.ReplaceAtomic | internal/config/storage.go:477-559 | a stopped publication leaves the old document or the new one, and at most a sibling beside it |
| PurgeStore.TerminalThrough | internal/config/cleanup.go:177-198 | through the last unlinks, with the receipt in place, every moment is recoverable until the receipt itself goes |
| LateOpens.OpensDuringLastUnlinks | internal/config/storage.go:193-229 | while the last names are unlinked, opens by other processes add at most a fresh lifecycle lock after the old one went; none gets past the receipt before the last unlink, and then it finds a directory to initialize |
| LateOpens.LastUnlinksBegin | internal/config/cleanup.go:177-198 | every purge reaches those last unlinks with identity and receipt in place and nothing else owned |
| LateOpens.OpensAgain | internal/config/storage.go:193-229 | an opener gets past as soon as the purge is through, and only then |
| PurgeStore.OrdinaryAccessRefused | internal/config/storage.go:107-163 | on a recoverable disk no ordinary open of existing state succeeds and no ordinary lease passes its check; a purge lease passes exactly for the same installation |
| PurgeStore.NothingLeftToOpen | internal/config/storage.go:599-618 | once the owned names are gone, stores opened before are stale and nothing can be opened as existing |
| PurgeStore.OpenWhilePurging | internal/config/storage.go:167-284 | on a recoverable disk the initializing open succeeds exactly when identity record and needed state locks are there and the receipt is not; it creates lock files at most |
| PurgeStore.OpenAcceptsPurging | internal/config/storage.go:207-283 | a disk on which it does succeed although the installation is purging |
| PurgeRules.OpenExactly | internal/config/storage.go:165-284 | the initializing open gives a store exactly for its own identity record with the locks it needs, or where neither record, receipt nor database is |
| PurgeRules.OpenLosesNothing | internal/config/storage.go:165-284 | opening, wherever it is stopped, loses no file and changes none, except that an identity record may become established |
| PurgeRules.OpenExistingExactly | internal/config/storage.go:107-163 | existing state is opened exactly by an identity record of this root or, without one, by a receipt that names a purge of it, and only cleanup opens a purging or pending installation |
| PurgeRules.LeaseExactly | internal/config/storage.go:599-618 | a lease passes exactly while its own identity is recorded, established and neither purging nor pending unless the lease is for a purge |
| Initialization.InitializationRetryable | internal/config/storage.go:165-284 | stopping the initializing open anywhere keeps a published identity and a retryable directory; the open that is not stopped yields a store that ordinary leases accept |
| InstallationStore.Store.Replace | internal/config/storage.go:477-559 | leaves its whole plan done, or a prefix of it less the sibling that an error unlinks; succeeds with enough steps |
| InstallationStore.Store.RemoveAll | internal/config/cleanup.go:162-170 | unlinks the listed names in order, or stops in between |
| InstallationStore.Store.TakeLocks | internal/config/cleanup.go:66-104 | takes lifecycle and state locks, recreating missing ones only under a purge; always succeeds on a recoverable disk with enough steps |
| InstallationStore.Store.BeginPurge | internal/config/locks.go:336-356 | publishes the purging identity atomically, and changes nothing if its lease no longer checks |
| InstallationStore.Store.FinishPurge | internal/config/cleanup.go:154-211 | follows its plan to the end or to where it was stopped; on a recoverable disk it fails only when a step fails |
| InstallationStore.Store.Uninstall | internal/service/cleanup.go:28-150 | the uninstall from opening to the last unlink is the planned one, service and registration records, pending flag and purge included, done or stopped somewhere; unless a step fails it succeeds exactly for an established or purging installation with its locks and a readable service record; without an identity it changes nothing and succeeds only if no owned name is left |
| InstallationStore.Store.RemoveRecords | internal/service/cleanup.go:84-116 | a recorded service's files go first, registrations are saved while agents are removed, and then both kinds of record go, in this order or stopped in between |
| ProfileDatabase.PublishedConsistent | internal/config/database.go:347-424 | a committed publication holds exactly the listed profiles and the bundles they refer to, one each, bound to its own connection, within 8 MiB, under the next generation |
| ProfileDatabase.PublishedCiphertext | internal/config/database.go:379-399 | every bundle is a replacement or an untouched old one, and a referenced bundle of a connection that is not replaced is kept as it was |
| ProfileDatabase.PublicationAccepts | internal/config/database.go:347-424 | publication of new ciphertext succeeds if and only if the document is valid, the expected revision is current, every reference has its own connection's bundle, and the total fits |
| ProfileDatabase.PublicationRefused | internal/config/database.go:347-424 | a publication of new ciphertext is refused as invalid, stale, too large or, at the commit, unbacked in exactly these cases, in this order |
| ProfileDatabase.ConsistentMeans | internal/config/database.go:164-177 | in a consistent database no two connections share an ID, an alias or a credential, and each credential has one row of its own connection |
| ProfileDatabase.ProfilesStaged | internal/config/database.go:387-396 | the inserts succeed exactly for profiles with distinct IDs, aliases and references, and the table then holds exactly these |
| ProfileDatabase.RevisionsNeverReturn | internal/config/database.go:230-232 | in every run, a revision seen twice means that nothing was published in between, even if content returned to an old value |
| ProfileDatabase.StaleNeverWins | internal/config/database.go:360-366 | once anything was published after a revision was seen, no publication that expects it succeeds |
| ProfileDatabase.ConsistentAlways | internal/config/database.go:164-177 | from a consistent database every run of publications and keyset writes stays consistent |
| ProfileDatabase.KeysetStillRead | internal/config/database.go:297-324 | a publication whose replacements were each reserved passes the keyset check that held before it |
| ProfileDatabase.KeysetAcceptedExactly | internal/config/database.go:297-324 | the keyset row is accepted exactly when its reservations are bounded and cover the bundles, of which there are none before a key is ready |
| ProfileDatabase.ProfileStore.Publish | internal/config/database.go:347-424 | all or nothing: success means exactly the publication with its revision, an error other than an unknown commit means no change, and an unknown commit means one or the other |
| Credentials.Apply | internal/vault/vault.go:68-89 | in any iteration order, succeeds exactly when all fields are known and all values valid, and then replaces the patched fields and keeps the others |
| Credentials.OverlayTwice | internal/vault/vault.go:62-89 | patching twice is patching once with the later patch winning |
| Credentials.OverlayValid | internal/vault/vault.go:36-43 | a valid patch over valid secrets gives valid secrets |
| CredentialVault.PatchesCompose | internal/vault/repository.go:344-498 | two mutations in a row that patch one connection leave the credential that both patches together, the later winning, make of the first secrets |
| CredentialVault.PatchedValid | internal/vault/repository.go:387-412 | what a patch makes of secrets that were read is always valid, so only replacements can be refused for their values |
| CredentialVault.WishGranted | internal/vault/repository.go:375-459 | after publication every patched or replaced profile's bundle opens to the wanted secrets, and every kept profile's to what it opened to before |
| CredentialVault.AppliedMeans | internal/vault/repository.go:375-459 | after a mutation took effect each listed credential reads, field by field, as its patch over what read before, over nothing if the bundle was missing and the patch has every secret that the transport asks for, as its replacement, or as before |
| CredentialVault.RefusedExactly | internal/vault/repository.go:387-412 | a wish is refused exactly for a bad patch, for an unreadable credential, or for a missing one that the patch does not replace completely |
| CredentialVault.CredentialExactly | internal/vault/repository.go:259-302 | a credential reads as what its own bundle opens to under the usable recorded key, and otherwise fails for the first reason in a fixed order |
| CredentialVault.CredentialBound | internal/vault/repository.go:281-301 | secrets are read only from a bundle that was sealed under the recorded key for this installation, connection and reference |
| CredentialVault.KeyAskedFor | internal/vault/repository.go:320-342 | the key is asked for exactly when a mutation may have a secret to seal, and invalid patches are refused before that |
| CredentialVault.FeasibleLocked | internal/vault/repository.go:354-361 | a mutation that seals nothing and can be met with the key can be met without it |
| CredentialVault.RemovedGone | internal/config/database.go:397-399 | a profile that is no longer listed leaves no bundle |
| CredentialVault.FeasiblePublishes | internal/vault/repository.go:375-491 | ciphertext prepared under new references, for wishes that can be met and with room left, is accepted by publication |
| CredentialVault.Repository.Unlock | internal/vault/repository.go:57-215 | never touches profiles or ciphertext, never changes a ready keyset row or overwrites a key, holds only the recorded key afterwards, over the row that the lifecycle promises, and without faults succeeds exactly when the recorded key is there or none is ready yet |
| CredentialVault.Repository.CreateIfAbsent | internal/vault/provider.go:26-33 | an existing key is never overwritten, and what is returned is the key that is there |
| CredentialVault.Repository.Encrypt | internal/vault/repository.go:417-459 | one durable reservation precedes each sealing, and the result is bound to installation, connection and new reference |
| CredentialVault.Repository.Choose | internal/vault/repository.go:386-399 | the secrets to write are the patch over what reads now, over nothing if the bundle is missing and the patch complete, or the replacement |
| CredentialVault.Repository.PrepareOne | internal/vault/repository.go:380-460 | one turn refuses a foreign reference, keeps a profile with its bundle, clears empty secrets or seals the others, and fails only for a stated reason |
| CredentialVault.Repository.Apply | internal/vault/repository.go:344-498 | a saved mutation, or an uncertain one that took effect, has its whole effect: the listed profiles, every credential reading as wanted or as before, no bundle of a removed one; otherwise nothing changed, and the outcome flags say which; a mutation that can be met with the key at hand succeeds, and a locked repository then unlocks for it; one that seals nothing succeeds locked and leaves key and keychain alone |
| KeysetLifecycle.EncryptionsReserved | internal/vault/repository.go:417-459 | in all runs with faults at every point, encryptions never exceed the durable reservations, these never exceed a million, and all use the recorded key |
| KeysetLifecycle.BundlesUnderRecordedKey | internal/vault/repository.go:137-202 | every stored bundle is sealed under the recorded key; an intent has no reservations, bundles or encryptions |
| KeysetLifecycle.KeysetNeverRejected | internal/config/database.go:297-324 | the keyset consistency check never rejects a state that these steps produced |
| KeysetLifecycle.ReadyForGood | internal/config/database.go:326-340 | a ready fingerprint never changes and reservations never decrease |
| KeysetLifecycle.HeldKeyRecorded | internal/vault/repository.go:203-214 | a process that holds a key holds the recorded one |
| KeysetLifecycle.KeyNeverOverwritten | internal/vault/repository.go:150-176 | a key in the keychain stays there until it is lost |
| KeysetProgress.KeyRecovered | internal/vault/repository.go:57-215 | from whatever an interrupted attempt left behind a process can get a key if nothing fails, the recorded one if it is there; only a ready row without its key is a dead end |
| KeysetProgress.SecretStored | internal/vault/repository.go:417-491 | a process with a key stores a secret with one reservation, one encryption and one publication |
| KeysetLifecycle.InvKept | internal/vault/repository.go:57-215 | every read, write, provider call, return and crash keeps the accounting and what each process relies on |
| SessionGuard.KeysSeparate | internal/mcp/session.go:69-86 | two IDs share a private key exactly when they are the same string or the same integer |
| SessionGuard.PendingBounded | internal/mcp/session.go:187-207 | at most sixteen calls are pending and no two of them carry the same ID |
| SessionGuard.AnsweredOnce | internal/mcp/session.go:259-294 | every SDK response on the wire answers an admitted call with that call's own ID, none twice and none still pending |
| SessionGuard.NoCallLost | internal/mcp/session.go:187-294 | at every moment each admitted call is either pending or answered, so that pending calls and responses together number the admitted ones |
| SessionGuard.InitializationOrder | internal/mcp/session.go:156-206 | at every moment `ready` implies `initSent`, and with `initSent` no initialize is in flight |
| SessionGuard.OneInitialize | internal/mcp/session.go:191-206 | at most one initialize is in flight |
| SessionGuard.InitializedForGood | internal/mcp/session.go:286-292 | a session that was initialized stays so |
| SessionGuard.CancelledOnce | internal/mcp/session.go:166-179 | the cancellation of a call reaches the SDK at most once |
| SessionGuard.RepeatedId | internal/mcp/session.go:148-190 | a repeated ID is dropped while its call is pending, except with an empty method, which is refused under that ID |
| SessionRules.AdmittedExactly | internal/mcp/session.go:187-222 | a request reaches the SDK exactly when its ID is free, fewer than sixteen are pending and the session takes such calls: all but server/discover when ready, ping always, initialize unless one was answered or is in flight |
| SessionRules.ArrivedReady | internal/mcp/session.go:191-206 | in every run each call that was let through, other than initialize and ping, arrived when the session was ready |
| SessionRules.ReadyExactly | internal/mcp/session.go:156-163 | the session is ready exactly when the client confirmed after initialize was answered with success |
| SessionRules.NotifiedExactly | internal/mcp/session.go:154-185 | a notification reaches the SDK exactly when it is that first confirmation or the first cancellation of a pending call of a ready session, and none is ever answered |
| SessionRules.RefusedExactly | internal/mcp/session.go:101-222 | malformed lines are answered without an ID, requests that are neither delivered nor repeated under their own, and nothing else is |
| SessionRules.RefusalSent | internal/mcp/session.go:224-257 | what goes out directly is the answer to the line read last |
| SessionRules.AnswersTruthfully | internal/mcp/session.go:259-294 | a response reports success exactly when the SDK gave a result for that call and it could be encoded |
| SessionRules.MeantKept | internal/mcp/session.go:156-293 | every event keeps the flags true to the wire: initialized means a successful answer, initializing means a pending initialize, cancelled means delivered |
| SessionGuard.InvKept | internal/mcp/session.go:88-300 | every read, write and notification keeps the table, flags, answers and cancellations consistent |
| SessionGuard.Guard.Read | internal/mcp/session.go:147-222 | one line changes table and flags and is delivered, dropped or refused exactly as the step function says |
| SessionGuard.Guard.FinishWrite | internal/mcp/session.go:286-293 | a written response retires its call, and only a successful initialize sets `initSent` |
| JsonKeys.CheckJson | internal/contracts/json.go:37-87 | a valid text is accepted exactly when no object at any depth repeats a decoded key and, under a limit, no value is enclosed too deeply |
| JsonKeys.MachineAgrees | internal/contracts/json.go:45-86 | the stack machine agrees with the recursive reading of every value and ends with an empty stack |
| JsonKeys.ReadValue | internal/contracts/json.go:53-86 | the tokens of one value, in any context, are rejected or complete one value and leave the rest of the stack alone |
| JsonKeys.CheckTokens | internal/contracts/json.go:53-86 | the loop that edits frames on the stack computes the machine's answer for every token sequence |
| JsonKeys.LimitIsHeight | internal/contracts/json.go:75-77 | a limit rejects exactly the texts that nest deeper than it and changes nothing else |
| ShellBlock.InstallThenRemove | internal/distribution/shell.go:84-102 | uninstalling after installing gives back the text with its last line ended |
| ShellBlock.RestoredExactly | internal/distribution/shell.go:90-95 | the text itself comes back if and only if it was empty or ended with a newline |
| ShellBlock.InstallAgain | internal/distribution/shell.go:89-102 | installing a newer block over an older one is installing the newer one; the same one twice is once |
| ShellBlock.AcceptedKeepsOutside | internal/distribution/shell.go:96-101 | replacing in any accepted text with markers keeps every byte outside its block |
| ShellBlock.AcceptedExactly | internal/distribution/shell.go:96-101 | a text with markers is accepted if and only if one pair of complete marker lines divides it and no other marker is in it |
| ShellBlock.CleanedTwice | internal/distribution/shell.go:161-181 | removing the block leaves no marker, so removing again changes nothing |
| ShellBlock.QuoteReads | internal/distribution/shell.go:17-18 | a POSIX shell reads a quoted word back as the original string |
| ShellBlock.BodyUsable | internal/distribution/shell.go:140-141 | the installed body is whole lines, and free of markers exactly when the quoted path is |
| ShellBlock.EscapedOccurs | internal/distribution/shell.go:17-18 | quoting neither hides nor makes an occurrence of a pattern without quotes |
| ShellBlock.ShellChanges | internal/distribution/shell.go:133-159 | changes exactly the files whose markers are not ambiguous and records exactly them |
| ShellBlock.RemoveShell | internal/distribution/shell.go:161-181 | cleans exactly the recorded startup files, even if one is recorded twice |
| ShellBlock.UninstallRestores | internal/distribution/shell.go:103-181 | uninstalling undoes installing in every marker-free startup file up to the end of its last line, and leaves files alone that were never changed |

## Left out

- The command line, terminal forms, agent registration, release download, service start and stop: user interface and subprocess plumbing.
- Dialling, SSH, SOCKS5, TLS, sockets, peer credentials and the native keyrings: each is a step that succeeds or fails.
- The parser, SQLite, encoding/json, base64, AEAD, HMAC and SHA-256 themselves: the model takes a parse tree, atomic commits with deferred constraints, and ideal laws.
- Catalog SQL, the privilege audit and other server semantics; describing single tables and objects; the payload bound on metadata pages.
- Real time: deadlines, polling delays and idle timers are steps that may happen at any moment.
- Which error a refusal returns where only acceptance is promised, and how errors are worded.
- The two admission semaphores of the driver and of database reads: true but easy.
- SqlGuard.CheckTree: an empty CTE name, which the parser never produces, makes the program dereference a missing message; the model gives it a verdict of its own and the statement is about trees with nonempty names.
- ResultBudget.Execute: column names, the row description check and the marshalling of values enter as inputs.
- ResultTypes.Decode: the text grammar of arrays, UTF-8 validity and scalar decoders are inputs; where no length is negative, the grammar is assumed to give as many elements as the dimensions hold.
- WireFrames.FrameReader.Read: the underlying reader's error is passed through unchanged and not modelled.
- CatalogPaging.ListTables: the catalog is fixed between requests, names are UTF-8, and rows come in the order the query asks for.
- ConnectionPool.OwnershipBounded: idle connections that a retired pool handed to its retirer for closing are no longer the pool's and are not counted.
- LateOpens.OpensDuringLastUnlinks: the advisory lock among openers is not needed for it and left out; what an opener past the receipt goes on to write is the initialization modelled elsewhere.
- PoolObjects.Driver.Renew: retiring for a changed fingerprint and creating the pool are separate branches here, as eviction never happens after a retirement.
- StateLeases.WriteLeaseAlone: threads are values in a state machine rather than lease objects, because the steps interleave; a lease's check reads all names at one moment.
- InstallationStore.Store.Uninstall: the keyset query, key deletion, the service manager, agents' own configurations, empty directories and files outside the inventory are external to it; what agent removal publishes is an input, and the state lease that the code releases and takes again is taken once.
- InstallationDisk.Open: the migration of older inventories and the contents of the database file are not modelled; derived members of the identity document are left out.
- ProfileDatabase.Publication: the byte limit on profile documents and corrupted rows are not modelled, and the generation is unbounded.
- CredentialVault.Repository.Apply: saving a host key is a step that may fail; closing the repository during the call is not modelled.
- KeysetLifecycle.ReadyForGood: a purge deletes the whole database and ends the run; losing the key is a step.
- SessionGuard.Guard.Read: decoding of a line into its members enters as an input, and the socket's own errors end the run.
- JsonKeys.CheckJson: syntax and UTF-8 are taken as valid, and a text as the value that it denotes.
- ShellBlock.UninstallRestores: symbolic links, file modes, size limits and write errors are not modelled.
