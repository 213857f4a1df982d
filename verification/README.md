# TPN worker: leases, proxy credentials and the SOCKS5 handshake

The TPN worker hands out WireGuard peers and SOCKS5 credentials as leases with an expiry, kept in
one SQLite file, and serves them itself. This project models the parts of the worker where several
requests, the daemon tick and restarts meet, and proves what clients and operators rely on: that a
lease has one holder at a time, that the two SOCKS5 pools never mix, that memory and table agree,
and that the proxy's byte protocol is decoded exactly.

| files | what they model |
|---|---|
| `LeaseTable`, `LeaseProtocol`, `LeaseProofs`, `LeaseLock`, `LeaseTheorems`, `LeaseRefusals`, `LeaseRuns`, `LeaseLimits`, `LeaseTurn` | the WireGuard lease rows: each SQL statement, then the protocol as a state machine in which every statement, clock reading and lock step of every task interleaves |
| `WireGuardServer`, `PeerAgreement`, `TunnelAddresses` | the in-memory peers, allocation with its rollbacks, cleanup, extension and restart, operation by operation |
| `PeerSteps`, `PeerStepProofs`, `PeerStepLimits` | rows and peers statement by statement: the lease state machine with the peers map, its requests and the daemon's list, removals and deletion |
| `Socks5Table`, `Socks5Pool`, `Socks5PoolProofs`, `Socks5PoolLock`, `Socks5PoolTheorems`, `Socks5PoolRefusals`, `Socks5PoolRuns`, `Socks5PoolLimits`, `Socks5Turn` | the credential table, its shared and exclusive pool, and the same kind of state machine for them |
| `Credentials` | the batch write and the in-memory credential map |
| `NamedLocks` | the named mutexes |
| `Socks5Server`, `Socks5Proofs`, `Socks5Wire` | the SOCKS5 handshake on bytes (RFC 1928, RFC 1929), and its messages in literal bytes |
| `TtlCache`, `LocalIp`, `Text`, `Wrappers` | the cache, the subnet test, decimal and dotted-quad text, shared datatypes |

**Two levels.** Code that changes objects is a class whose methods are proved against a function of
the old state (`Register`, `Allocate`, `RequestExclusive`, `Conversation`, ...). Interleaving is a
state machine `Step` over actions, total, so that a theorem about `Run` holds for every sequence of
actions whatever. The levels meet in `LeaseTurn` and `Socks5Turn`: a turn that nobody interrupts
does exactly what the function says.

**Parameters.** The clock is a parameter of each call, or advances by a step of its own. Generated keys,
names and random picks are parameters. The kernel interface is one that may refuse any call. Key
derivation is an arbitrary function, the password check of the handshake an arbitrary predicate on
bytes.

**What is assumed of extensions.** The code sets an expiry to the request's clock plus its seconds
and checks neither the direction nor the age of that reading; the token it asks for names only the id
and never expires (`api/lease.rs:115-123`, `api/lease.rs:154-158`). So hypotheses speak of the
extensions that a run contains: `ForwardOnly` and `NeverBack` of their direction, `LaggedBy` of the
age of their clock readings in milliseconds, `OnlyTokenHolders` and `OnlyTold` of what their clients
know: a token for the id, or the very (id, expiry) pair. `Steady` is what the WireGuard proofs need:
no extension moves back, and one that stays where it was presents a pair its client was told.

**What turned out to be conditional.** Each of these has a concrete run where it fails and its exact
condition, as an if-and-only-if.

- *One holder at a time.* An extension may shorten a lease (`service/lease_manager.rs:45`). If all
  extensions of a run shift the expiry by the same amount, one holder per WireGuard id is guaranteed
  exactly when the amount is positive, for any clients and for clients with tokens alike
  (`ForwardExtensionsAreExactlySafe`); for clients that present only pairs they were told, exactly
  when it is not negative (`ToldExtensionsAreExactlySafe`). The difference is one case: a client of an
  earlier tenancy, whose token still counts, guesses the expiry of a reservation that is not granted
  yet and extends it by nothing; the rollback, which knows its row by id and expiry only, then deletes
  a row that was promised. Per exclusive SOCKS5 credential the bound is "not negative" for any clients
  (`Socks5PoolLimits.NeverBackIsExactlySafe`).
- *Expired leases stay expired.* The clock is read before the UPDATE that uses it. No expired lease is
  revived exactly when no reading is older than its UPDATE; a reading one millisecond old revives one,
  its client honest (`ReadingsMustBeCurrent`, for both kinds of lease). A lease that expired longer
  ago than the oldest reading never changes again (`ExpiredLeasesStayExpired`).
- *A pair is extended once.* A forward extension succeeds at most once on a (reference, expiry) pair
  exactly when readings are at most two milliseconds old for WireGuard and one for SOCKS5
  (`PairsAreExtendedOnceExactly`): an older one can meet the same pair in a later tenancy.
- *Keys go to their own row.* `store_peer_keys` has no guard on the expiry. Keys stored no later than
  the expiry of their own lease always go to its row; a millisecond later they can be written into the
  row of the lease that has the id by then (`KeysGoAstray`, `KeysStayHomeExactly`).
- *Refusals.* A refused WireGuard request found every id held by a row unexpired at its own purge,
  exactly when extensions do not move back (`RefusedOnlyWhenFullExactly`). A refused non-priority
  SOCKS5 request found every exclusive row to outlast its own cleanup: under the lock exactly when
  extensions do not move back (`LockedRefusalsAreRightExactly`); over pre-check and lock together
  exactly when, besides, every grant is marked before its expiry, a guard `expires_at > now` that the
  marking UPDATE lacks (`RefusalsAreRightExactly`). Without it the unlocked pre-check refuses although
  the only row has run out, because a request that waited for the lock took it in between with an
  expiry that had come (`PreCheckMayRefuseOnExpiredRow`).
- *Lookups answer the last write.* The cache's `get` drops its guard before it removes an expired
  entry (`service/cache.rs:29-32`). Lookups are right throughout exactly when no `set` that comes
  between a look and its removal is still the key's last write, and still good, at the removal
  (`LookupsAnswerExactlyIfNoWriteIsLost`); four calls lose a value for good (`SetBetweenHalvesIsLost`).
- *Rows and peers agree.* Between whole operations they do (`HealthyForever`). Statement by statement,
  a live keyed row has its own peer in memory exactly unless a daemon tick had listed the id before
  that peer was added and removed it afterwards (`RowsAndPeersAgreeExactly`); it does happen
  (`DaemonOrphansALease`).
- *Credentials in memory and table agree.* After a migration from password files they do exactly if
  some file has a password or the table was empty (`Initialize`).
- *String test for local addresses.* It is CIDR membership for every address exactly when the mask is
  0, 8, 16 or 24. With mask 32 it matches nothing, with a mask inside an octet it ignores the extra
  bits.
- The repository's README speaks of a 90-minute grace period before expired rows are deleted; the
  code has none (`db/cleanup.rs:47-48`), and the model follows the code.

## Model

| member | source | states |
|---|---|---|
| LeaseTable.FirstFreeIsLeast | src/db/wireguard.rs:66-85 | the recursive enumeration over a non-empty range covers exactly that range: the id found is the least one without a row, and none is found exactly when every id has a row |
| LeaseTable.RegisterIsFirstFit | src/db/wireguard.rs:17-56 | registration is refused exactly when every id of the range is held by an unexpired row; otherwise it adds one row at the least free id, or after the purge at the least expired one, and changes nothing else |
| LeaseTable.ConfigTable.TryAllocate | src/db/wireguard.rs:59-108 | the lease and the rows after one try |
| LeaseTable.ConfigTable.RegisterLease | src/db/wireguard.rs:17-56 | try, purge, try again: rows and result are those of `Register` |
| LeaseTable.ConfigTable.ExtendLease | src/db/wireguard.rs:111-148 | compare-and-swap on the expiry of an unexpired row, and the error otherwise |
| LeaseTable.ConfigTable.MarkConfigAsFree | src/db/wireguard.rs:151-169 | the row is gone afterwards unless it carries another expiry than the expected one; no other row changes |
| LeaseTable.ConfigTable.ExpiredPeerIds | src/db/wireguard.rs:192-200 | an id is listed exactly when it has a row whose expiry is strictly past |
| LeaseTable.ConfigTable.CleanupExpired | src/db/wireguard.rs:203-214 | deletes exactly the rows whose expiry is strictly past, leaves the others unchanged and counts what is gone |
| LeaseProofs.StepKeepsInv | src/db/wireguard.rs:17-214 | every step of every task keeps the invariant behind exclusivity, under steady extensions: a promise is covered by its own row, or has strictly run out |
| LeaseTheorems.LeasesAreExclusive | src/db/wireguard.rs:17-214 | in every run with steady extensions an id has one holder at a time and is issued again only after every earlier promise on it, of this process or an earlier one, has strictly run out; with forward extensions an unexpired (id, expiry) pair is extended at most once |
| LeaseTheorems.ExtensionSucceedsOnce | src/db/wireguard.rs:111-148 | with clock readings at most two milliseconds old at most one forward extension ever succeeds on an (id, expiry) pair |
| LeaseLimits.PairsAreExtendedOnceExactly | src/db/wireguard.rs:117-131 | that bound is exact: it holds in all runs with forward extensions, and in all runs of honest clients, if and only if readings are at most two milliseconds old |
| LeaseLock.OneTaskAllocates | src/sync/locks.rs:32-54 | in every run at most one task is between its SELECT and the end of its turn, and the id it selected has no row at the INSERT, so the conflict arm is never taken |
| LeaseLock.LockIsReleased | src/sync/locks.rs:32-54 | from every reachable state with a holder, under every continuation by all tasks: the lock is freed, or the holder can still move on by success and by failure and has moved fewer times than its rank, at most six |
| LeaseRefusals.RefusedOnlyWhenFull | src/db/wireguard.rs:34-53 | in every run whose extensions do not move back, at the very moment of a refusal every id of the range is held by a row that had not expired at the purge of the same turn |
| LeaseLimits.RefusedOnlyWhenFullExactly | src/db/wireguard.rs:34-53 | if all extensions shift the expiry by the same amount, in all runs and in all runs of clients that present told pairs, refusals are like that exactly when the amount is not negative |
| LeaseTheorems.RollbackRemovesOwnOrExpired | src/wireguard/peer_manager.rs:31-55 | in every run with steady extensions, what a rollback deletes is its own reservation, never promised to a client, or a row that has strictly expired |
| LeaseTheorems.CleanupSparesExtendable | src/db/wireguard.rs:203-214 | in any run no purge or daemon sweep removes a row on which an extension could still succeed at that instant |
| LeaseTheorems.KeysGoToOwnRowUnlessExpired | src/wireguard/peer_manager.rs:87-112 | in every run with steady extensions, keys are written to the row of their own reservation unless that reservation has strictly expired |
| LeaseLimits.KeysGoAstray | src/wireguard/peer_manager.rs:87-112 | a reachable state, one millisecond after its lease ran out, from which a request writes its keys into the row granted to another lease |
| LeaseLimits.KeysStayHomeExactly | src/wireguard/peer_manager.rs:87-112 | keys stored up to some time after their lease's expiry always go to its own row, in all runs with steady extensions and in all runs of honest clients, if and only if that time is not positive |
| LeaseTheorems.ExpiredLeasesStayExpired | src/db/wireguard.rs:111-148 | from any state: a lease that expired longer ago than the oldest clock reading never changes its expiry again while its row is there |
| LeaseRefusals.PromisedIdsInRange | src/service/lease_manager.rs:139-142 | in every run whatever, every id ever promised lies in the requested range |
| LeaseLimits.StaleReadingRevives | src/db/wireguard.rs:117-131 | a run of honest clients in which a clock reading one millisecond old extends an expired lease |
| LeaseLimits.ReadingsMustBeCurrent | src/db/wireguard.rs:117-131 | expired leases are never revived, in all runs and in all runs of honest clients, if and only if no clock reading is older than its UPDATE |
| LeaseLimits.ForwardExtensionsAreExactlySafe | src/service/lease_manager.rs:45 | if all extensions shift the expiry by the same amount, every run keeps one holder per id exactly when that amount is positive, and so does every run whose clients hold tokens for the id |
| LeaseLimits.ToldExtensionsAreExactlySafe | src/api/lease.rs:115-158 | for clients that present only pairs they were told, exactly when that amount is not negative |
| LeaseTurn.UninterruptedTurnIsRegister | src/db/wireguard.rs:24-55 | a queued request that nobody interrupts leaves the rows and the outcome of `Register`, and the lock free |
| LeaseTurn.UninterruptedExtension | src/db/wireguard.rs:111-148 | an extension that nobody interrupts renews exactly its row, if it has the expected, unexpired expiry, to the request's clock plus its seconds |
| WireGuardServer.ServerKeyTable.LoadOrCreate | src/wireguard/server.rs:732-754 | the newest stored key pair, with the table as it was; or, if there is none, the generated pair, which is then the only one stored |
| WireGuardServer.WireGuardServer.AddPeer | src/wireguard/server.rs:517-546 | only if the kernel takes it, the peer enters the map with its public key derived from its private one and its address in the server's network; the config names that peer's keys and address, the server's public key, endpoint and dns, field by field |
| WireGuardServer.WireGuardServer.RemovePeer | src/wireguard/server.rs:549-572 | the map entry is gone whatever the kernel says; an error exactly when the kernel refuses a known peer |
| WireGuardServer.WireGuardServer.GetClientConfig | src/wireguard/server.rs:583-598 | for a peer in the map the config with its keys and address and the server's public key, field by field; an error for any other id |
| WireGuardServer.WireGuardServer.RestorePeers | src/wireguard/server.rs:464-514 | every peer id claimed by an unexpired row with both keys that the kernel accepts has the peer of such a row, all others stay, and the rows are counted; with ids that fit, each row gets its own peer, made of its stored keys and address |
| WireGuardServer.RestoredMeaning | src/wireguard/server.rs:464-514 | a restart keeps exactly the rows with both keys that have not run out and that the kernel takes; what the peer's fields are, defaults included |
| WireGuardServer.AllocatePeer | src/wireguard/peer_manager.rs:16-67 | rows, peers and result after a reservation, the interface and the key update, with both rollback paths |
| WireGuardServer.ExtendPeer | src/service/lease_manager.rs:43-71 | without an unexpired row of the expected expiry nothing changes and the answer is LeaseUnavailable; with one the row is renewed and the answer is the config of the peer in memory, if there is one |
| WireGuardServer.ExtensionMeaning | src/service/lease_manager.rs:43-71 | the same of every table and peers map: a refused extension changes nothing and reveals nothing |
| WireGuardServer.DatabaseCleanup | src/db/cleanup.rs:23-48 | afterwards no row that had expired has its peer, every peer no such row claims is there as before, and exactly the rows not expired at the earlier clock reading are there, unchanged |
| WireGuardServer.CleanUpMeaning | src/db/cleanup.rs:23-48 | the same of every table and peers map |
| PeerAgreement.AllocateIsAllOrNothing | src/wireguard/peer_manager.rs:16-67 | refused exactly when every id is held by an unexpired row; a later failure leaves the rows it found if its rollback runs, else besides them its bare reservation, and takes no other peer away; a success adds exactly one row and one peer, and row, peer and config agree field by field, keys derived |
| PeerAgreement.AllocateKeepsHealthy | src/wireguard/peer_manager.rs:16-67 | an allocation, successful or failing anywhere, keeps every unexpired keyed row equal to its peer in memory, except for peers the kernel refused at the last restart |
| PeerAgreement.CleanUpKeepsHealthy | src/db/cleanup.rs:23-48 | so does a daemon tick |
| PeerAgreement.RestartMakesHealthy | src/wireguard/server.rs:464-514 | a restart establishes that agreement from any table, whatever peers the kernel refuses |
| PeerAgreement.HealthyForever | src/wireguard/server.rs:464-598 | agreement holds after every sequence of allocations, extensions, ticks and restarts, complete or partial |
| PeerAgreement.ExtensionFindsItsConfig | src/service/lease_manager.rs:43-71 | after any run from a start-up: a refused extension changes and reveals nothing; extending an unexpired keyed lease renews it and returns the config made of its own keys and address, except that exactly for an id refused at the last restart and not issued since it answers with an error; public keys stay derived from private ones |
| PeerAgreement.RefusedPeerCannotBeFetched | src/wireguard/server.rs:491-497 | that exception happens: an allocation, a restart in which the kernel refuses its peer, and an extension that moves the expiry and answers with an error |
| PeerStepProofs.RowsAndPeersAgreeExactly | src/db/cleanup.rs:23-48 | in every reachable state of every interleaving with steady, current extensions and requests that finish before their reservation runs out: a live keyed row whose peer was not refused at the last restart has its own peer in memory if and only if no daemon tick listed its id before that peer was added and removed it after; else it has none |
| PeerStepLimits.DaemonOrphansALease | src/db/cleanup.rs:23-48 | such a tick happens: a reachable state in which a live keyed lease has lost its peer |
| PeerStepLimits.FailedRequestLeavesNothing | src/wireguard/peer_manager.rs:39-55 | statement by statement: a request whose key update fails, with its rollbacks, takes away its peer and its reservation and nothing else |
| PeerAgreement.RestartRoundTrip | src/wireguard/server.rs:464-514 | after a restart an id has a config exactly when its row is unexpired, keyed and accepted by the kernel, and it is the config from before; the server keeps its keys |
| TunnelAddresses.PeerCountIsNearest | src/config.rs:193-195 | the clamped peer count lies in 1..253 and is the nearest such number to the configured one |
| TunnelAddresses.AddressesAreInTheNetwork | src/wireguard/server.rs:626-643 | server and peer addresses share the base's first three octets; the server's last octet is one further, a peer's its id further still, modulo 256 |
| TunnelAddresses.NoOverflowExactly | src/wireguard/server.rs:637-643 | no peer address wraps around exactly when the base octet leaves room for the clamped peer count |
| TunnelAddresses.LiveLeasesNeverShareAnAddress | src/wireguard/server.rs:626-643 | in every reachable state of every run with steady extensions two unexpired leases have different tunnel addresses, neither is the server's, and with a base ending in .0 the last octet stays within 254 |
| Socks5Table.QueriesMeaning | src/db/socks5.rs:53-62 | on any table: the shared query answers exactly the available rows with fewer than P available ones before them, the OFFSET query the one with P before it if there is one, the count what is beyond P |
| Socks5Table.QueriesAreDisjoint | src/db/socks5.rs:53-62 | with the shared rows intact the shared query answers exactly the lowest ranks and the OFFSET query the least available rank above them, if there is one |
| Socks5Table.SupplyIsConserved | src/db/socks5.rs:276-289 | available and taken rows make up the table, at most N - P are taken, and the count is positive exactly when the OFFSET query finds a row |
| Socks5Table.RequestExclusiveMeaning | src/service/lease_manager.rs:196-221 | a non-priority request fails exactly when every row of rank P and above has an expiry later than now; otherwise it takes one that was free or had run out, returns that very row, id, address, port and credentials, and changes nothing but freeing rows that had run out |
| Socks5Table.TakeExclusiveMeaning | src/db/socks5.rs:92-155 | on any table the locked body takes and returns the available row with P available ones before it, if need be after freeing the expired rows, and fails when there is none |
| Socks5Table.CredentialTable.GetShared | src/db/socks5.rs:48-89 | returns one of the first P available rows; the rows of its username get the new expiry and nothing else changes |
| Socks5Table.CredentialTable.GetExclusive | src/db/socks5.rs:92-155 | the body run under the lock: query, cleanup, query again, mark |
| Socks5Table.CredentialTable.AllocateExclusive | src/service/lease_manager.rs:196-221 | pre-check, cleanup, second check, then the locked allocation |
| Socks5Table.CredentialTable.ExtendLease | src/db/socks5.rs:159-192 | succeeds exactly when the row is there with the expected, unexpired expiry, and changes only that |
| Socks5Table.CredentialTable.CleanupExpired | src/db/socks5.rs:257-273 | rows with a positive expiry that has come are free again, every other row is unchanged, and no row is left with such an expiry |
| Socks5Table.CredentialTable.WriteSocks | src/db/socks5.rs:211-254 | the loop of upserts and the final DELETE leave the rows of `Write` |
| Socks5PoolProofs.StepKeepsInv | src/db/socks5.rs:48-192 | every step of every task keeps the rank invariant: rows below P available, the others available exactly when they carry no expiry |
| Socks5PoolTheorems.PoolsStayDisjoint | src/db/socks5.rs:48-155 | in every run from a fresh table the P lowest rows are available, shared grants are always of them and exclusive grants never |
| Socks5PoolTheorems.SupplyInEveryRun | src/db/socks5.rs:276-289 | in every reachable state no row is lost, at most N - P are out, and pre-check and OFFSET query agree |
| Socks5PoolTheorems.OnlyFreeRowsAreTaken | src/db/socks5.rs:92-155 | in every run one task at a time is in its turn, and the row it is about to mark is available and without expiry, so no credential is granted while its expiry lies ahead |
| Socks5PoolTheorems.CredentialsAreExclusive | src/db/socks5.rs:92-192 | in every run whose extensions do not move back a credential has one holder at a time and is taken again only when every earlier promise has run out; if they move forward an unexpired (username, expiry) pair is extended at most once |
| Socks5PoolTheorems.CleanupSparesExtendable | src/db/socks5.rs:257-273 | no cleanup of any run, inside or outside the lock, touches a row on which an extension could still succeed at that instant |
| Socks5PoolRefusals.RefusedOnlyWhenAllTaken | src/db/socks5.rs:113-134 | at the very moment of a refusal, under the lock or in the pre-check, every row of rank P and above is taken and has an expiry; if no extension moves back it lies after the cutoff of the request's own cleanup, or, in the pre-check, the row was taken since |
| Socks5PoolLimits.LockedRefusalsAreRightExactly | src/db/socks5.rs:113-134 | if all extensions shift the expiry by the same amount, refusals under the lock found every exclusive row to outlast their own cleanup exactly when the amount is not negative |
| Socks5PoolLimits.RefusalsAreRightExactly | src/service/lease_manager.rs:196-221 | all refusals did, in runs whose extensions do not move back and whose grants are marked by some margin before their expiry, exactly when the margin is positive; and in uniformly shifted runs exactly when, besides, the shift is not negative |
| Socks5PoolLimits.PreCheckMayRefuseOnExpiredRow | src/service/lease_manager.rs:203-214 | a run in which that exception happens |
| Socks5PoolTheorems.ExtensionSucceedsOnce | src/db/socks5.rs:159-192 | with clock readings at most one millisecond old at most one forward extension ever succeeds on a (username, expiry) pair of an exclusive row |
| Socks5PoolLimits.PairsAreExtendedOnceExactly | src/db/socks5.rs:165-178 | that bound is exact, in all runs with forward extensions and in all runs of honest clients |
| Socks5PoolTheorems.ExpiredGrantsStayExpired | src/db/socks5.rs:159-192 | an exclusive grant that expired longer ago than the oldest clock reading never changes its expiry again while it is out |
| Socks5PoolLimits.StaleReadingRevives | src/db/socks5.rs:165-178 | a run of honest clients in which a clock reading one millisecond old extends an expired grant |
| Socks5PoolLimits.ReadingsMustBeCurrent | src/db/socks5.rs:165-178 | expired grants are never revived, in all runs and in all runs of honest clients, if and only if no clock reading is older than its UPDATE |
| Socks5PoolLimits.NeverBackIsExactlySafe | src/service/lease_manager.rs:45 | if all extensions shift the expiry by the same amount, every run keeps one holder per exclusive credential exactly when that amount is not negative, and so does every run of clients that present only told pairs |
| Socks5PoolLock.LockIsReleased | src/sync/locks.rs:32-54 | from every reachable state with a holder, under every continuation by all tasks: the lock is freed, or the holder can still move on by success and by failure and has moved fewer times than its rank, at most six |
| Socks5Turn.UninterruptedRequestIsRequestExclusive | src/service/lease_manager.rs:196-221 | a non-priority request that nobody interrupts, step by step, leaves the rows of `RequestExclusive` and has marked the very row it returns |
| Socks5Turn.UninterruptedSharedRequest | src/db/socks5.rs:48-89 | a priority request that nobody interrupts takes a shared row as chance picks it and changes only its expiry, to the request's clock plus its seconds |
| Socks5Turn.UninterruptedExtension | src/db/socks5.rs:159-192 | an extension that nobody interrupts renews exactly the row of its username, if it has the expected, unexpired expiry, to the request's clock plus its seconds |
| Socks5Turn.RefusedExactlyWhenNoneHasRunOut | src/service/lease_manager.rs:196-221 | in every reachable state with the lock free such a request is refused exactly when every row of rank P and above expires later than now |
| Credentials.WriteMeaning | src/db/socks5.rs:211-254 | a non-empty batch leaves exactly its usernames: the last duplicate's password wins, surviving rows keep id, address, availability and expiry, new rows get new ids |
| Credentials.LoadingSyncs | src/proxy/credentials.rs:151-166 | after loading, a username and password pair authenticates exactly when the table has that row |
| Credentials.WritingSyncsExactly | src/proxy/credentials.rs:188-194 | writing a batch to the table and to an empty map makes the two agree, duplicates included, if and only if the batch is not empty or the table was |
| Credentials.CredentialManager.Authenticate | src/proxy/credentials.rs:97-110 | accepts exactly the stored pair |
| Credentials.CredentialManager.LoadFromDb | src/proxy/credentials.rs:151-166 | the map is refilled and agrees with the table |
| Credentials.CredentialManager.GenerateCredentials | src/proxy/credentials.rs:169-198 | the batch is written to the table and inserted into the map in order |
| Credentials.ImportedMeaning | src/proxy/credentials.rs:222-248 | file by file, in order: one with a password becomes one fresh row, available unless it was used; one without becomes nothing |
| Credentials.CredentialManager.MigrateFromPasswordFiles | src/proxy/credentials.rs:222-258 | that batch is written to the table and inserted into the map |
| Credentials.CredentialManager.Initialize | src/proxy/credentials.rs:46-93 | without password files map and table agree afterwards and a non-empty table keeps its rows but for host and port; with files they agree exactly if some file has a password or the table was empty |
| NamedLocks.NamesAreIndependent | src/sync/locks.rs:9-30 | who holds one name depends only on the events about that name |
| NamedLocks.TurnsDoNotOverlap | src/sync/locks.rs:32-54 | between two grants of one name the first holder has left |
| NamedLocks.NamedLockManager.GetLock | src/sync/locks.rs:24-30 | always the same mutex for a name, a new one only for a new name, never shared by two names |
| NamedLocks.NamedLockManager.WithLock | src/sync/locks.rs:34-54 | the body's outcome, or an error when the name stays held; the lock is as before in every case |
| NamedLocks.NamedLockManager.IsLocked | src/sync/locks.rs:58-64 | true exactly when somebody holds the name |
| Socks5Server.ClientStream.ReadTarget | src/proxy/socks5.rs:82-180 | the reads and writes of the handshake, in order, are those of the byte-level specification |
| Socks5Server.ClientStream.HandleConnection | src/proxy/socks5.rs:73-216 | verdict, bytes consumed and bytes written up to the relay are those of `Conversation` |
| Socks5Proofs.HandshakeDecodes | src/proxy/socks5.rs:82-180 | decoding inverts encoding for every well-formed dialogue with accepted credentials, and leaves the payload unread |
| Socks5Proofs.HandshakeEncodes | src/proxy/socks5.rs:82-180 | encoding inverts decoding: an accepted stream starts with exactly the encoding of what was decoded |
| Socks5Proofs.AcceptedExactly | src/proxy/socks5.rs:82-180 | a target is accepted exactly when the stream starts with a well-formed dialogue naming it, with credentials the authenticator accepts |
| Socks5Proofs.DialoguesArePrefixFree | src/proxy/socks5.rs:82-180 | no stream reads as two different dialogues |
| Socks5Proofs.LaterBytesNeverMatter | src/proxy/socks5.rs:82-180 | bytes arriving after a conversation is over change nothing |
| Socks5Proofs.ConsumptionBounded | src/proxy/socks5.rs:82-180 | at most 1032 bytes are read before the relay, whatever is sent |
| Socks5Proofs.ReplyDiscipline | src/proxy/socks5.rs:93-248 | for every stream the bytes written are, byte for byte, the answer owed to the verdict and a prefix of a legal conversation, with at most one reply |
| Socks5Wire.EncodingOnTheWire | src/proxy/socks5.rs:82-180 | the dialogues that are decoded, written out in literal bytes |
| Socks5Wire.AcceptedIsAnswered | src/proxy/socks5.rs:190-248 | an accepted dialogue in literal bytes is answered by 5 2, 1 0 and one reply whose code is 0 for a connection, 5 for a refused one, 1 for an unreachable or slow target |
| Socks5Wire.GreetingIsRefused | src/proxy/socks5.rs:84-98 | another version gets no answer after one byte; a greeting without method 2 gets 5 255 |
| Socks5Wire.LoginIsRefused | src/proxy/socks5.rs:106-126 | another login version ends the conversation after 5 2; rejected credentials get 1 1 |
| Socks5Wire.RequestIsRefused | src/proxy/socks5.rs:134-176 | after an accepted login another version gets no answer, another command reply 7, another address type reply 8, each after the bytes it was read from |
| Socks5Wire.CutOffOnlyAtTheEnd | src/proxy/socks5.rs:82-180 | a stream is cut off only when all of it was read, so every stream longer than 1032 bytes is decided |
| TtlCache.TtlCache.Look | src/service/cache.rs:27-35 | the first half of `get`: the unexpired value, and whether an expired entry is to be removed |
| TtlCache.TtlCache.Get | src/service/cache.rs:26-36 | with nothing between its halves: the unexpired value, and the entry dropped if it had expired |
| TtlCache.TtlCache.Contains | src/service/cache.rs:61-63 | whether an unexpired value is there, dropping an expired one |
| TtlCache.TtlCache.Set | src/service/cache.rs:44-48 | the key has the value, with the deadline its time to live ahead or none, and no other entry changes |
| TtlCache.TtlCache.EvictExpired | src/service/cache.rs:66-71 | keeps exactly the entries whose deadline has not passed, unchanged |
| TtlCache.LookupAnswersLastWrite | src/service/cache.rs:26-71 | under a non-decreasing clock every lookup answers what the last write to the key says, until its deadline, if no write was lost between the halves of a `get` |
| TtlCache.LookupsAnswerExactlyIfNoWriteIsLost | src/service/cache.rs:26-36 | with other calls between the halves of a `get`, lookups answer the last write throughout a history if and only if no `set` that came between a look and its removal is still the last write of the key, and still good, at the removal |
| TtlCache.SetBetweenHalvesIsLost | src/service/cache.rs:26-36 | a history of four calls in which a value set without deadline is lost at once |
| TtlCache.ReadsAndEvictionsAreUnobservable | src/service/cache.rs:26-71 | adding or dropping reads and evictions anywhere changes no later answer |
| LocalIp.PrefixTestMeaning | src/net/ip.rs:43-57 | what the string prefix test decides for every mask: equality of the whole octets covered, and nothing for a host route |
| LocalIp.StringTestIsCidrExactlyForWholeOctets | src/net/ip.rs:34-57 | the string test is numeric CIDR membership for every address exactly when the mask is 0, 8, 16 or 24 |
| LocalIp.SanitizeMeaning | src/net/ip.rs:13-22 | for any text: white space around it goes, the IPv4-mapped prefix goes, IPv6 loopback becomes the IPv4 one, everything else stays |
| LocalIp.UnreadableMaskIs16 | src/net/ip.rs:43-57 | a subnet without a readable mask counts as a /16 |
| LocalIp.LoopbackNames | src/net/ip.rs:26-32 | localhost and both loopback addresses, plain or IPv4-mapped, are local whatever the subnets |
| LocalIp.SanitizeCanonical | src/net/ip.rs:13-22 | canonical dotted quads, plain or IPv4-mapped, come out as themselves |
| LocalIp.IsLocalIpMeaning | src/net/ip.rs:26-40 | on canonical input: loopback, or member of one of the two subnets |
| Text.ParseShowQuad | src/wireguard/server.rs:506 | parsing an address that was printed gives it back |
| Text.ShowParseQuad | src/wireguard/server.rs:506 | only the canonical text of an address parses to it |

## Left out

- HTTP routes, login, dashboard, logs, upgrades and process control: input and output around the modelled logic.
- Kernel and shell effects beyond "a peer is taken or refused": routing tables, iptables, modprobe.
- Key generation and derivation, HMAC, base64 and constant-time comparison: keys are opaque strings and the public key is an arbitrary function of the private one.
- Driver errors: only those at which the code rolls back are modelled; in the state machines a task may fail at any statement, but a failed statement has no effect.
- The columns `updated` and `updated_at`, error messages, and the earliest-expiry diagnostic: nothing modelled depends on them.
- Integer widths of expiries: `lease_seconds * 1000` is unbounded here, and so is the row id outside the `as u16` conversions.
- The text of an extension reference and its parse as a number, and the CI mock branch of `allocate_wireguard`.
- The proxy's handshake timeout, write errors, TCP keepalive and the relay; UTF-8 lossy decoding, so names and targets stay bytes.
- Rows that start unavailable, as migrated ones may: the pool's runs start from generated rows.
- `release_peer`, `rotate_peer_keys`, `rotate_password`, `check_open_leases`: not called by the modelled operations, and the first three remove or replace state without the guards above.
- A client's disconnect in the middle of a request, which drops its task at any await; a restart that drops all tasks is modelled.
- Changes of PRIORITY_SLOTS, of the peer count or of the subnet between runs.
- LocalIp.SanitizeMeaning: trims ASCII white space only, where the source trims Unicode white space.
- Credentials.CredentialManager.Initialize: takes the legacy files as read, with names trimmed and passwords stripped; the directory scan is input and output.
- NamedLocks.NamedLockManager.WithLock: the call is one step, so a held lock stays held until the timeout, and the body is only its outcome; overlapping turns are the subject of the event lemmas and of the state machines.
- Credentials.CredentialManager.LoadFromDb: asks for distinct usernames, which the table's uniqueness constraint guarantees.
- WireGuardServer.DatabaseCleanup: is one operation; its statements one by one are the subject of `PeerSteps`.
- PeerStepProofs.RowsAndPeersAgreeExactly: takes the kernel call and the map update of adding a peer as one step, and excludes stale clock readings and requests slower than their lease, whose effects `ReadingsMustBeCurrent` and `KeysStayHomeExactly` describe.
- PeerAgreement.HealthyForever: says nothing of peers without a live row; the purge inside a registration leaves their entries in the map.
- LeaseTheorems.LeasesAreExclusive: assumes steady extensions; the exact limits are `ForwardExtensionsAreExactlySafe` and `ToldExtensionsAreExactlySafe`.
- LeaseTheorems.ExtensionSucceedsOnce: assumes a bound on the age of clock readings that the code does not enforce; `PairsAreExtendedOnceExactly` shows that it needs exactly this one.
- LeaseTheorems.ExpiredLeasesStayExpired: the same; see `ReadingsMustBeCurrent`.
- Socks5PoolTheorems.ExpiredGrantsStayExpired: the same; see `Socks5PoolLimits.ReadingsMustBeCurrent`.
- LeaseTheorems.KeysGoToOwnRowUnlessExpired: excludes grants slower than their lease; `KeysStayHomeExactly` shows that it must.
- TtlCache.TtlCache.Get: is one step; `Look` and the removals tied to it model the two halves.
- Socks5PoolTheorems.CredentialsAreExclusive: is about the exclusive pool; rows of the shared pool have many holders by design, and their expiry moves in either direction.
