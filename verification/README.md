# Containarium core, verified in Dafny

A model of six stateful parts of Containarium, and proofs about them.  `dafny verify
dfyconfig.toml` checks the whole project.

**Audit hash chain** (`HashChain`, `AuditStore`).  Rows are length-prefixed fields hashed with
the previous row's hash.  SHA-256 is any function from byte strings to 64 characters, so tamper
evidence reads "equal, or here is a collision".  Appends are transactions that interleave step by
step; `NoFork` and `EveryRunVerifies` hold for every interleaving.

**Edge reconciler** (`CaddyConfig`, `HttpRoutes`, `TlsSubjects`, `Layer4`, `Layer4Manager`,
`EdgeBase`, `EdgeManager`, `RouteTables`, `RouteDiff`, `RouteSync`).  Caddy is an object holding
a configuration tree and a count of mutating requests; each request is atomic.  Two managers edit
the tree, and a job drives it towards the database.  The live HTTP list is seen as each
host's routes in order, the passthrough list as a table; `RouteSyncJob.Sync` is proved to
converge in one tick, with the exact exception of hosts on several routes, and to be quiet at the
fixpoint, and `RouteSyncJob.Run` lifts this to every sequence of ticks and losses.

**Durable runs** (`RunFiles`, `RunLifecycle`).  A step system over spawn, output, exit, sidecar,
reap, agent-box death, reboot and signals, with records, logs and sidecars on disk.

**Packet programs** (`SignatureScan`, `PrefixTrie`, `NetPolicy`).  The flattened signature scan,
the tenant-scoped longest-prefix lookups, and flow accounting in both directions.

**Failure rate limiter** (`RateLimiter`) and **drain and tail** (`Capacity`, `TailLog`).

`Decimal` holds integer printing and parsing, `Strings` white space, and `Wrappers` the option
type, used by several of them.

## Assumptions

- Edge: no admin request fails within a tick; the WAF handler is off, since ListRoutes reads the
  upstream from the first handler; the wake state does not change within a tick.
- Edge: the hosts of rows and live routes come from a set `D` on which the two id derivations
  agree and ids do not collide (`Universe`), and live HTTP routes have at most one host each and,
  if they have an id, the one their host gives them (`Tidy`).  A stub meets this, and every tick
  keeps it.  `RemovalExactly`, `IdsCollideExactly` and `CollisionDropsOther` say what happens
  otherwise.
- Edge: a delete by id takes one or more of the routes that hold the id, any of them
  (`Removal`); the repository says nothing on which, and its own stand-in for Caddy takes all
  (internal/app/proxy_selfheal_test.go:73-103).  Every result holds for every choice.  A PUT on
  a key that exists is refused, and so is one below a missing parent.
- Edge: passthrough rows have a non-empty host and a non-negative port (`RowsOk`).
  `DialRoundTrip` shows that a negative port never reads back, so such a row is written anew on
  every tick.
- Runs: a live agent-box's reaper writes before the name is reused, start seconds differ per
  name, no sanitized name ends in `.digits`, the three renames of a rotation complete, and no
  agent-box dies between starting a child and recording it (`Assumed`).  `LateReaperClobbers` and
  `OrphanStatusInherited` show why the first and the last are needed, `CurrentIsLastExactly` and
  `OwnSidecarExactly` what they are needed for, exactly.
- Limiter: float tokens are `real`, time is in minutes, and the clock does not run back.
- Packet programs: the signature map has its 32 slots of 32 bytes (`Slots`), copying payload
  bytes does not fail, and the flow map does not evict.
- Audit: ids of the initial table are sorted and positive and unhashed rows come first (`Init`).
  Strings are byte strings, one character per byte.

## Where the code differs from its documentation or from what one expects

- The comment above `Log` (internal/audit/store.go:150) speaks of SELECT FOR UPDATE; the code
  takes an advisory lock (line 205), which is what is modelled.
- The anchored loop compares a row with its predecessor only inside one batch, and does not
  compare the first row past the checkpoint with the anchored one (`AnchorExact`,
  `CheckpointLinkUnchecked`).  `FirstBadAfterCheckpoint` is never non-zero in a result, because a
  broken batch returns an error instead.  The comment at internal/audit/store.go:482-486 reads
  the root comparison as covering every row up to the checkpoint; it covers none of their
  contents unless the table is verified from id 0 as well (`AnchorBlind`, `OkMeans`).
- A narrow deny entry hides a wider one whose port or protocol would match
  (`NarrowDenyShadowsWide`).
- AddRoute and RemoveRoute derive ids differently on some names, and ids of different hosts can
  coincide (`IdsAgreeExactly`, `IdsCollideExactly`, `CollisionDropsOther`).
- A host can get two routes, because deploying an app adds its route without removing an older
  one (internal/app/manager.go:231).  The first serves and the last is compared, so the host can
  stay at the wrong upstream for good (`ListedIsServedExactly`, `RedeployStrands`,
  `HealsExactly`, `UnchangedInputs`).
- A row whose protocol is neither `grpc` nor `http` leaves a live gRPC route at its address as it
  is (`ProtocolExactly`).
- Port 443 gets two owners if the plaintext ingress listener is `:443` itself
  (`OneOwnerOf443`), if a listen reconcile straddles a deactivation, or if the creation of the
  server straddles an activation (`StaleReconcileExactly`, `StaleCreateExactly`,
  `StaleInterleavingsClash`).
- Activation overwrites the whole layer4 app, and deactivation deletes it, so other layer4
  servers are lost (`DeactivateRestoresExactly`).
- A run whose sidecar says one code resolves to -1 once its wrapper is signalled and reaped
  (`ExitedStaysExited`).
- The comment above `netpolicy_egress` (experimental/ebpf-phaseA/netpolicy.bpf.c:531-532) says
  the program always passes; the code drops a signature hit in enforce mode.

## Model

| member | source | states |
|---|---|---|
| `HashChain.ComputeRowHash` | internal/audit/hash_chain.go:81-108 | writes the version's fields and then the previous hash into a running hash; the result is the digest of exactly that serialization, and an unknown version is an error and never a digest |
| `HashChain.HashWriter.WriteField` | internal/audit/hash_chain.go:110-112 | appends one length-prefixed field to what was written |
| `HashChain.ConcatInjective` | internal/audit/hash_chain.go:83-85 | length-prefixed field lists decode uniquely: two lists of any fields and lengths with the same serialization are the same list |
| `HashChain.SerializeInjective` | internal/audit/hash_chain.go:81-112 | two rows serialize alike exactly when version, previous hash and every hashed field agree; version 1 and version 2 rows never do |
| `HashChain.SerializedAs` | internal/audit/hash_chain.go:81-108 | the fields in their order, eight and the previous hash under version 1, thirteen and the previous hash under version 2 |
| `HashChain.VerifyChain` | internal/audit/hash_chain.go:125-144 | intact exactly when every row links to its predecessor and carries its own hash; otherwise the id and reason are those of the first wrong row, the reason being the first of: previous hash, unknown version, own hash |
| `HashChain.ChainedConcat` | internal/audit/hash_chain.go:125-144 | a concatenation verifies exactly when the first part does and the second does from the first part's tip |
| `HashChain.SameTipSameRows` | internal/audit/hash_chain.go:81-144 | for any uniquely decodable serialization: equal tips mean equal rows, or a function computes a collision |
| `HashChain.TamperEvident` | internal/audit/hash_chain.go:81-144 | two non-empty logs that verify from the empty root and end in the same hash have equal length and agree on every hashed field, previous hash and version, or `Suspects` computes two different byte strings with one digest |
| `HashChain.EditSurvives` | internal/audit/hash_chain.go:63-108 | an edit of one row's id and entry passes verification exactly when it touches no hashed field or is a collision |
| `AuditStore.TruncateMatchesColumn` | internal/audit/store.go:169-180 | the truncated time is what the column gives back, for every time; an untruncated one only when it has no sub-microsecond part |
| `AuditStore.StepKeepsInv` | internal/audit/store.go:164-264 | every step of any open transaction (begin, lock, read tail, insert, commit, rollback) keeps the committed chain sound and the lock holder's read current |
| `AuditStore.RunKeepsInv` | internal/audit/store.go:164-264 | that invariant holds after every interleaving of any number of transactions |
| `AuditStore.NoFork` | internal/audit/store.go:182-264 | under every interleaving each committed row's previous hash is the hash of the row just before it in id order, and its own hash is right |
| `AuditStore.RowsAreCommitted` | internal/audit/store.go:164-264 | over every interleaving the rows appended are, one for one and in commit order, the entries with which the committed transactions began, times cut to the microsecond; a rolled-back one leaves no row |
| `AuditStore.EveryRunVerifies` | internal/audit/store.go:292-340 | after every interleaving, verification succeeds from every id and for every limit, over legacy rows and mixed versions |
| `AuditStore.SoundVerifies` | internal/audit/store.go:292-340 | any sound table verifies from every starting id with every limit |
| `AuditStore.VerifyChainSinceID` | internal/audit/store.go:292-340 | intact exactly when the selected batch is chained from its root; a fault is reported at the id of a hashed row past the starting id |
| `AuditStore.SinceIDExactly` | internal/audit/store.go:292-340 | the batch verifies exactly when each of the first 1000 (or limit) hashed rows past the id has a known version, its own digest and its predecessor's hash, the first one only when starting from 0 |
| `AuditStore.Store.Log` | internal/audit/store.go:164-264 | appends one row with the next id: the argument's entry in every field but the time, which is the given one, or the clock's when none is given, cut to the microsecond; version 2; the tail's hash and the digest over both |
| `AuditStore.LogIsRun` | internal/audit/store.go:164-264 | an uninterrupted Log call is a run of the step system, with the same final table |
| `AuditStore.VerifyChainAgainstAnchor` | internal/audit/store.go:519-558 | terminates; answers without error exactly when there is an anchor and every batch from the checkpoint on verifies, and OK exactly when the checkpoint's hash is also the anchored one; a failure names a hashed row past the checkpoint |
| `AuditStore.AnchorExact` | internal/audit/store.go:537-551 | what an error-free anchored run has checked, both ways: each hashed row past the checkpoint has its own hash recomputed, and its link compared just when one batch holds both rows, for any id gaps |
| `AuditStore.CheckpointLinkUnchecked` | internal/audit/store.go:519-551 | finding: a row sealed under any previous hash passes right after the checkpoint, so the link to the anchored row is not compared |
| `AuditStore.UncheckedExactly` | internal/audit/store.go:537-551 | finding: inside the range the link left unchecked is exactly that of a row whose predecessor ends a full batch of consecutive ids |
| `AuditStore.AnchorBlind` | internal/audit/store.go:482-508 | finding: no rewrite of rows up to the checkpoint, the checkpoint's own entry included, changes an anchored result, as long as the checkpoint's stored hash stays |
| `AuditStore.OkMeans` | internal/audit/store.go:506-508 | an OK result on a table that also verifies from id 0: its hashed rows up to the checkpoint are the anchored rows, or `Suspects` computes a collision |
| `AuditStore.AuditSchemeDecodes` | internal/audit/hash_chain.go:81-112 | the audit table's serialization decodes, as the previous row asks |
| `RouteSync.RouteSyncJob.Sync` | internal/app/route_sync.go:170-232 | one fault-free tick from any managed tree, whichever routes Caddy takes on a delete by id: base intact; every host that heals is served as the database asks (all of them, unless a host had several routes), at the wake handler while its container is in wake mode and else at the row's own target; exactly its passthrough SNIs in layer4 (up if ever activated or needed, and then handing other connections to a server that terminates TLS); every live host held by a TLS subject, none left for a host that is gone, wildcards kept; 443 keeps one owner; nothing is left to do exactly when no host without a row has a route left, as when none had several before; and a tick with nothing to do makes no write |
| `RouteSync.RouteSyncJob.Run` | internal/app/route_sync.go:142-167 | over any sequence of ticks with changing rows and wake states and losses of Caddy's whole tree: each tick takes every host's routes where one tick can; once the tree has no host on two routes, or has been lost once, every tick ends with all its rows served and nothing to do, and one that repeats the previous tick's inputs writes nothing |
| `RouteSync.UnchangedInputs` | internal/app/route_sync.go:142-167 | over any number of ticks with unchanged inputs and any tree: a host with a row keeps the routes it has after the first tick, so it heals then or never; a host without one loses at least a route per tick until none is left |
| `RouteSync.RowServed` | internal/app/route_sync.go:170-232 | settled with no host on two routes, row by row, in the row's own fields: an HTTP or gRPC host is served at the wake handler's address while its container is named and in wake mode, else at the row's target, by HTTP/2 for gRPC and not for HTTP, and its subject needs no repair; a passthrough SNI is dispatched to the row's target |
| `RouteSync.NothingElseServed` | internal/app/route_sync.go:350-382 | settled, a host without an HTTP row has no route, and an SNI without a passthrough row falls through to the HTTP server |
| `RouteSync.RouteSyncJob.SyncHTTPRoutes` | internal/app/route_sync.go:299-386 | for every iteration order, every list, hosts with several routes included, and every choice of Caddy on a delete by id: each wanted host's routes are kept if the last needs no update, else some are removed and a new one appended; each other host loses one or more and, unless a wildcard, its subject; only routes and TLS change; without a server nothing does; no write when quiet |
| `RouteSync.RouteSyncJob.SyncL4Routes` | internal/app/route_sync.go:389-486 | lazy until needed, up for good after: layer4 is up exactly if it was, had been, or some row needs it, and its table is then exactly the rows' targets; no write when settled |
| `RouteSync.RouteSyncJob.SyncTLSSubjects` | internal/app/route_sync.go:261-296 | afterwards every host of a row or a live route is held; no other host gains a subject; no write when all are held |
| `RouteSync.RouteSyncJob.EnsureBase` | internal/app/route_sync.go:178-191 | an intact base is left alone; otherwise it is rebuilt around the existing routes and layer4 app, the base domain's wildcard subject comes back where DNS-01 is configured, a server made anew is on 443 unless layer4 is, and 443 stays with one owner |
| `RouteSync.Collect` | internal/app/route_sync.go:266-293 | the hosts of rows and of live routes, without passthrough, inactive and empty ones, each once |
| `RouteSync.DbHostsExactly` | internal/app/route_sync.go:266-293 | the rows' hosts asked for are those of the active rows that are not passthrough |
| `RouteSync.PhasesCompose` | internal/app/route_sync.go:170-232 | base, HTTP, layer4 and TLS phases in this order make up the whole tick's guarantee: no later phase undoes an earlier one |
| `RouteSync.TickSettles` | internal/app/route_sync.go:170-232 | after a tick nothing is left to do exactly when no host without a row has a route left, and so whenever none had several before; every host that heals is served right |
| `RouteDiff.HealsExactly` | internal/app/route_sync.go:299-382 | one tick is sure to serve a host as the database asks, whatever Caddy chooses, exactly when the host heals, a test on its routes before: always with at most one route, otherwise when every route that a removal can leave in front is right (no row: at most one route) |
| `RouteDiff.RightIsAtRow` | internal/app/route_sync.go:493-519 | a live route needs no update exactly when it leads to the wake handler while the row's container is named and in wake mode, else to the row's target, and its protocol is not the wrong one of the two; what is pushed is such a route, gRPC exactly for a gRPC row |
| `RouteDiff.ProtocolExactly` | internal/app/route_sync.go:512-517 | finding: a right route has the row's protocol for certain exactly when that is grpc or http; under any other a live gRPC route is left alone |
| `RouteDiff.QuietIsFixpoint` | internal/app/route_sync.go:503-519 | the diff can leave a host's routes unchanged exactly when the job sees nothing to do for it, and then it does |
| `RouteDiff.SyncedQuietExactly` | internal/app/route_sync.go:299-382 | the next tick is sure to find a host quiet, whatever Caddy chooses, exactly when it has a row or had at most one route |
| `RouteDiff.RepeatedTicks` | internal/app/route_sync.go:299-382 | the routes of one host over any number of ticks with unchanged inputs: fixed from the first on with a row, fewer each time without |
| `RouteDiff.RedeployStrands` | internal/app/proxy.go:226-326 | finding: a host live at an upstream its row does not name, with the right route added behind it, is left so by every tick, served at the wrong one |
| `RouteDiff.EnsuredSettles` | internal/app/route_sync.go:261-296 | the TLS phase holds every host, and leaves a tree that holds them all unchanged |
| `RouteTables.ListingIsLast` | internal/app/proxy.go:1028-1068 | ListRoutes indexed by host holds the live hosts, each with its last route |
| `RouteTables.ListedIsServedExactly` | internal/app/route_sync.go:313-316 | finding: what the index says of a live host is what serves it exactly when its first and last route lead to the same place |
| `RouteTables.EntriesIndexTable` | internal/app/l4_proxy.go:412-449 | ListL4Routes indexed by SNI is the passthrough table, each entry reading its dial address |
| `RouteTables.RouteUpdatedEdits` | internal/app/proxy.go:1085-1094 | remove then add takes one or more routes of the host and appends one, and changes nothing but that host's routes and TLS |
| `CaddyConfig.DialRoundTrip` | internal/app/l4_proxy.go:660-672 | printing and reading a dial address, any address text: ListRoutes always gets back what was printed, parseDial exactly when the port is not negative |
| `CaddyConfig.ParseDial` | internal/app/l4_proxy.go:660-672 | splits at the last colon and accumulates the digits after it |
| `HttpRoutes.ViewOfRoute` | internal/app/proxy.go:1038-1062 | a route as added dials the given address and port, with HTTP/2 exactly for gRPC, and is listed with the same address, port and protocol |
| `HttpRoutes.ShortNames` | internal/app/proxy.go:226-246 | a name without a dot is put under the base domain, and its id is the name itself for adding and for removing under either spelling; any other name is used as it is |
| `HttpRoutes.IdsAgreeExactly` | internal/app/proxy.go:236-246 | finding: the id given by AddRoute and the id deleted by RemoveRoute differ exactly on names that carry the base domain twice |
| `HttpRoutes.SpelledExactly` | internal/app/proxy.go:909-917 | a name has an id exactly when it is the id itself, the id with the base domain glued on, or the id under the base domain, each with its side condition |
| `HttpRoutes.IdsCollideExactly` | internal/app/proxy.go:909-917 | finding: two hosts share an id exactly when they spell the same one |
| `HttpRoutes.IdsCollide` | internal/app/proxy.go:909-917 | finding: a host and the same host under the base domain share an id, and so do a host under it and one that ends in it without a dot |
| `HttpRoutes.CollisionDropsOther` | internal/app/proxy.go:907-941 | finding: for any two hosts that share an id, removing either can leave just the one, just the other, or neither, and nothing else |
| `HttpRoutes.RemovalExactly` | internal/app/proxy.go:907-997 | whichever routes with the id Caddy takes, RemoveRoute takes routes of the host only: exactly when every route with that id is the host's own |
| `HttpRoutes.RemovalsShorten` | internal/app/proxy.go:907-997 | then what can become of the host's routes is exactly this: one or more of those with an id go, or the first where none has one |
| `HttpRoutes.DroppedFind` | internal/app/proxy.go:907-997 | without hosts on two routes: every removal leaves the host gone and all others served as before, exactly under the same condition |
| `HttpRoutes.AddedFind` | internal/app/proxy.go:226-326 | on any list the new route joins the end of its host's routes, so it serves only where no older route does; no other host is affected |
| `EdgeManager.ProxyManager.AddRoute` | internal/app/proxy.go:226-326 | appends the route and provisions its host's subject; fails without a server |
| `EdgeManager.ProxyManager.RemoveRoute` | internal/app/proxy.go:907-997 | deletes by id where some route has it, of several one or more at Caddy's choice, else the host's first route, else nothing |
| `EdgeManager.ProxyManager.UpdateRoute` | internal/app/proxy.go:1085-1094 | removal followed by addition |
| `EdgeManager.ProxyManager.ListRoutes` | internal/app/proxy.go:1000-1071 | one entry per route with a host, in order |
| `EdgeManager.ListingIs` | internal/app/proxy.go:1028-1068 | what is listed is exactly an entry for each route with a host, with that route's first host, address, port and protocol |
| `EdgeManager.ProxyManager.ProvisionTLS` | internal/app/proxy.go:571-695 | repairs the policy that names the host, or adds it to the first policy, or makes a policy |
| `EdgeManager.ProxyManager.EnsureTLSSubjects` | internal/app/proxy.go:744-885 | the tree gets exactly the reconciled policies; no change means no write |
| `EdgeManager.ProxyManager.RemoveTLSSubject` | internal/app/proxy.go:331-388 | drops the subject from every policy and nothing else |
| `EdgeManager.ProxyManager.EnsureServerConfig` | internal/app/proxy.go:1097-1209 | server and TLS app exist afterwards, with the missing listen addresses appended |
| `EdgeManager.ProxyManager.EnsureBaseConfig` | internal/app/proxy.go:1444-1517 | rebuilt exactly when the server is missing or lacks wrappers or headers that are remembered; no write while intact; otherwise rebuild and re-apply the remembered trust by the two requests |
| `EdgeManager.ProxyManager.EnableProxyProtocol` | internal/app/proxy.go:1381-1426 | refuses empty and wildcard lists; otherwise the server's wrappers are the list, its trusted ranges exactly the trimmed entries of the list and of the remembered extra ranges, and the list is remembered |
| `EdgeManager.ProxyManager.ConfigureClientIP` | internal/app/proxy_clientip.go:30-69 | accepted exactly with a server, some setting, no blank header, and no blank, wildcard or malformed range; then sets the headers and, as trusted ranges, exactly the trimmed entries of the remembered list and the extra ranges, and remembers both |
| `EdgeManager.DedupedIs` | internal/app/proxy_clientip.go:87-104 | the union holds exactly the trimmed non-blank entries of both lists, each once |
| `EdgeManager.DedupedExtends` | internal/app/proxy_clientip.go:87-104 | the first list's entries come first, in their order |
| `EdgeManager.BaseEnsuredIntact` | internal/app/proxy.go:1444-1517 | a rebuilt base is intact, carries the remembered wrappers and headers and trusts exactly the union of the remembered ranges, keeps routes and addresses, and leaves layer4 and other servers alone |
| `TlsSubjects.CoversExactly` | internal/app/proxy.go:710-726 | subjectCovers is equality or the one-label wildcard rule of section 6.4.3 of RFC 6125, both ways |
| `TlsSubjects.Reconcile` | internal/app/proxy.go:744-885 | one pass, then repairs, then missing subjects; reports a write exactly when the policies change |
| `TlsSubjects.EnsuredCovers` | internal/app/proxy.go:744-885 | every non-empty domain asked for is covered afterwards |
| `TlsSubjects.EnsuredAddsOnlyMissing` | internal/app/proxy.go:744-885 | old subjects stay in place; what is added is exactly the uncovered domains, each once, to the first policy or a new one |
| `TlsSubjects.EnsuredFirstRepaired` | internal/app/proxy.go:800-845 | the first policy that covers a domain needs no repair afterwards |
| `TlsSubjects.EnsuredIssuable` | internal/app/proxy.go:416-527 | with DNS-01 configured, that policy's ACME issuers all carry the challenge |
| `TlsSubjects.EnsuredFixpoint` | internal/app/proxy.go:744-885 | the call changes nothing exactly when every domain is covered, first by a policy that needs no repair |
| `TlsSubjects.EnsuredIdempotent` | internal/app/proxy.go:744-885 | an immediate repeat changes nothing |
| `TlsSubjects.RepairIdempotent` | internal/app/proxy.go:416-515 | repairing a repaired policy changes nothing, for every issuer list, contact address and provider |
| `TlsSubjects.RepairedHasDns` | internal/app/proxy.go:416-453 | a repaired policy has issuers, and each ACME one can solve DNS-01, when it is configured |
| `TlsSubjects.RepairedWithEmail` | internal/app/proxy.go:416-484 | with a contact address every issuer stays in place, carries the address, gains the challenge only where it is an ACME issuer without one, and keeps all else |
| `TlsSubjects.RepairedWithoutEmail` | internal/app/proxy.go:416-515 | without one, exactly the ZeroSSL issuers without an address go, the others gain their missing challenge, and the default issuers come in if none is left |
| `TlsSubjects.RepairedFromNone` | internal/app/proxy.go:416-515 | a policy without issuers gets the default ones exactly when DNS-01 is configured |
| `TlsSubjects.EnsureDNSIssuers` | internal/app/proxy.go:416-453 | adds the challenge to every ACME issuer that lacks it, and reports exactly whether anything changed |
| `TlsSubjects.EnsureIssuerEmail` | internal/app/proxy.go:455-484 | sets the contact address, or drops issuers that need one, and reports exactly whether anything changed |
| `TlsSubjects.NewPolicyRepaired` | internal/app/caddy_types.go:373-408 | a policy made from issuersFor needs no repair |
| `TlsSubjects.IssuersForIs` | internal/app/caddy_types.go:373-389 | the default CA first, ZeroSSL second exactly with a contact address, both with the address and the challenge |
| `TlsSubjects.ProvisionedCovers` | internal/app/proxy.go:571-695 | the domain has a subject of its own afterwards and no host loses its cover |
| `TlsSubjects.ProvisionedAddsOnly` | internal/app/proxy.go:571-695 | no subject is added but the domain, at the end of the first policy, and only if no policy names it |
| `TlsSubjects.ProvisionedRepaired` | internal/app/proxy.go:571-695 | the policy that names the domain afterwards needs no repair |
| `TlsSubjects.RemovalUncoversOnly` | internal/app/proxy.go:331-388 | removing a non-wildcard subject changes the coverage of no other host |
| `TlsSubjects.RemovedKeeps` | internal/app/proxy.go:331-388 | every policy keeps its issuers and every subject but the removed one |
| `RouteDiff.AddedLists` | internal/app/proxy.go:226-326 | adding a route lists its own full domain as a subject and unlists none |
| `EdgeBase.EnsureDropsNothing` | internal/app/proxy.go:1173-1209 | listen reconciliation keeps every route and address of an existing server in place, adds exactly the missing addresses, and touches nothing else |
| `EdgeBase.EnsuredListens` | internal/app/proxy.go:165-192 | the server listens on 80, on 443 unless layer4 is up, and on the ingress listener if there is one; a new server on nothing else |
| `EdgeBase.EnsuredTls` | internal/app/proxy.go:1097-1209 | a TLS app that is there is kept; a missing one is made with one policy without subjects and the default issuers |
| `EdgeBase.StepKeepsInv` | internal/app/l4_proxy.go:117-344 | every call of either manager, and a loss of the tree, keeps 443 with one owner and the passthrough list in shape |
| `EdgeBase.OneOwnerOf443` | internal/app/proxy.go:165-206 | over all interleavings of both managers' calls and of losses, an HTTP server and layer4 never both listen on 443, exactly when the plaintext ingress listener is not 443 itself |
| `EdgeBase.StaleReconcileExactly` | internal/app/proxy.go:1173-1209 | finding, with its exact condition: a listen reconcile over any tree read and any tree asked about keeps one owner of 443 exactly when layer4 is down in what it read, or up when it asked with the ingress listener not on 443 |
| `EdgeBase.StaleCreateExactly` | internal/app/proxy.go:1330-1368 | finding: creating the server or the http app with addresses asked for earlier keeps one owner of 443 exactly when the PUT is refused, layer4 is down in the tree it finds, or layer4 was up when it asked with the ingress listener not on 443 |
| `EdgeBase.StaleInterleavingsClash` | internal/app/proxy.go:1573-1603 | both races happen: a deactivation between reading and asking, an activation between asking and writing |
| `EdgeBase.StepRefines` | internal/app/l4_proxy.go:161-409 | each call on the live list is the matching update of a plain map |
| `EdgeBase.RunDispatches` | internal/app/l4_proxy.go:161-517 | over every run, first-match dispatch through the live list, flat or wrapped, is lookup in that map with the HTTP server as default; the default is an address where an HTTP server terminates TLS whenever one listened on 443 at activation; and the server is wrapped exactly when the catch-all is tagged |
| `EdgeBase.DefaultTerminates` | internal/app/l4_proxy.go:577-616 | over every run, from an activation that found a server on 443 until deactivation or loss, some server with TLS connection policies listens where the catch-all dials |
| `EdgeBase.RunTells` | internal/app/l4_proxy.go:161-278 | over every run the layer4 server accepts PROXY headers from exactly the senders last accepted, and sends them to the HTTP server exactly if there are any and to a passthrough target never |
| `EdgeBase.DeactivateRestoresExactly` | internal/app/l4_proxy.go:117-155 | deactivating after activating restores the tree exactly when it had no layer4 app at all and no server used 8443 or TLS connection policies before |
| `Layer4.DispatchIsMap` | internal/app/l4_proxy.go:161-312 | dispatch on SNI (section 3 of RFC 6066) over an active server is the table with a default, in either shape |
| `Layer4.AddedTable` | internal/app/l4_proxy.go:349-385 | AddL4Route sets one entry, keeps one route per SNI with the catch-all last, and keeps listener and trusted senders |
| `Layer4.RemovedTable` | internal/app/l4_proxy.go:388-409 | RemoveL4Route removes one entry and keeps the shape, listener and trusted senders |
| `Layer4.ReshapedTable` | internal/app/l4_proxy.go:238-278 | wrapping changes no SNI's upstream, tags the catch-all, and trusts exactly the given senders |
| `Layer4.ActivatedTable` | internal/app/l4_proxy.go:117-155 | activation starts from an empty table on 443 with the manager's trusted senders, or keeps what there is |
| `Layer4.ActivatedServers` | internal/app/l4_proxy.go:577-616 | every server that listened on 443 has 8443 at the same positions and TLS connection policies, its other fields kept; every other server is equal; the layer4 app is the one server `tls_passthrough` |
| `Layer4.DeactivatedServers` | internal/app/l4_proxy.go:619-651 | every server has 443 at the positions of 8443 and no TLS connection policies, its other fields kept; the layer4 app is gone |
| `Layer4.AcceptableExactly` | internal/app/l4_proxy.go:65-76 | refused are exactly the empty list and lists with the whole IPv4 or IPv6 address space |
| `Layer4Manager.EntriesAreTable` | internal/app/l4_proxy.go:412-449 | what ListL4Routes reports is exactly the table, parsed |
| `Layer4Manager.L4ProxyManager.ActivateL4` | internal/app/l4_proxy.go:117-155 | moves every HTTP server off 443 and installs the layer4 server in one write; no write when already up or without an http app |
| `Layer4Manager.L4ProxyManager.DeactivateL4` | internal/app/l4_proxy.go:317-344 | removes layer4 and moves every server back |
| `Layer4Manager.L4ProxyManager.EnableL4ProxyProtocol` | internal/app/l4_proxy.go:224-278 | a refused list changes nothing; otherwise an active server is rebuilt wrapped, its match-less last route tagged |
| `Layer4Manager.L4ProxyManager.AddL4Route` | internal/app/l4_proxy.go:349-385 | removes the SNI's route, then inserts before the last route |
| `Layer4Manager.L4ProxyManager.RemoveL4Route` | internal/app/l4_proxy.go:388-409 | removes every route that names the SNI; at most one write |
| `Layer4Manager.L4ProxyManager.ListL4Routes` | internal/app/l4_proxy.go:412-449 | entries of the inner list, match-less routes and empty SNIs skipped |
| `Layer4Manager.MoveHTTPServersOff443` | internal/app/l4_proxy.go:577-616 | every server listening on 443 listens on 8443 instead and gets TLS connection policies; others are unchanged |
| `Layer4Manager.MoveHTTPServersTo443` | internal/app/l4_proxy.go:619-651 | every server's 8443 becomes 443 and its TLS connection policies go |
| `RunLifecycle.StepKeepsInv` | internal/agentbox/process.go:187-356 | every step (spawn, output, command exit, sidecar, shell exit, signal, reap, agent-box death, reboot) keeps each run's record and log under its stem |
| `RunLifecycle.RunKeepsInv` | internal/agentbox/process.go:187-356 | that invariant holds in every reachable state |
| `RunLifecycle.OutcomeIsOwn` | internal/agentbox/run_record.go:163-174 | in every reachable state a name's record is of the last run started under it; it resolves to exited exactly when that run placed its sidecar or was reaped, and then with a code this very run produced; to running exactly when neither, in its own boot and with its process alive; else to unknown |
| `RunLifecycle.BoxDeathUnseen` | internal/agentbox/run_record.go:163-174 | the death of an agent-box changes what no name resolves to, in any state |
| `RunLifecycle.LostNeverReaped` | internal/agentbox/process.go:331-353 | a reaper lost with its agent-box never writes, whatever follows |
| `RunLifecycle.RebootEndsRuns` | internal/agentbox/run_record.go:163-174 | a reboot ends every run, and whatever follows, a record of such a run never again resolves to running, even if its pid is alive again |
| `RunLifecycle.CurrentIsLastExactly` | internal/agentbox/process.go:331-353 | with no assumption: the name's record is of its last run at every moment exactly when no reaper writes under a name that a later run has taken, and no run goes unrecorded |
| `RunLifecycle.OwnSidecarExactly` | internal/agentbox/exit_sidecar.go:64-92 | with no assumption: the sidecar under a name is its last run's own at every moment exactly when no wrapper puts one under a name that is no longer its own, and no run starts where an unrecorded one has left its sidecar |
| `RunLifecycle.SidecarByIs` | internal/agentbox/exit_sidecar.go:132-157 | there is a sidecar under a name exactly when the history says whose, and it reads as that run's status |
| `RunLifecycle.ExitedStaysExited` | internal/agentbox/run_record.go:269-291 | exited stays exited, through any further steps, until the name is reused; the code stays too, exactly unless a wrapper with another code in its sidecar is ended by a signal and then reaped |
| `RunLifecycle.EndExplained` | internal/agentbox/process.go:331-353 | the wait status of a run is -1 if a signal ended its wrapper, else its command's status, unless a reboot ended it unreaped |
| `RunLifecycle.OutputStaysReadable` | internal/agentbox/run_record.go:368-393 | every run ever started keeps a record and a log under its current or rotated path, and the log holds all it wrote; truncation at spawn hits none of them |
| `RunLifecycle.SidecarRoundTrip` | internal/agentbox/exit_sidecar.go:110-130 | the code written into a sidecar is the code read from it |
| `RunLifecycle.BlankSidecar` | internal/agentbox/exit_sidecar.go:110-130 | an empty or blank sidecar is no sidecar |
| `RunLifecycle.OrphanStatusInherited` | internal/agentbox/process.go:243-330 | finding: an agent-box death between starting a child and recording it lets the orphan's status become the next run's |
| `RunLifecycle.LateReaperClobbers` | internal/agentbox/process.go:331-353 | finding: from an empty directory, a run that ends, a spawn that reuses its name, and the first run's reaper leave the second run without a record and its name with the first run's status |
| `RunLifecycle.AgentBox.Spawn` | internal/agentbox/process.go:187-356 | refused exactly without a command, while this agent-box has the name, or while the sanitized name's record is not exited, and then nothing changes; otherwise rotates, truncates and records as the step system does, and registers the name |
| `RunLifecycle.AgentBox.Kill` | internal/agentbox/process.go:438-526 | signals the registered process, else the run of the record if it is running, else nobody, whether or not the signal ends it; the name leaves the registry |
| `RunLifecycle.KillReaches` | internal/agentbox/process.go:438-526 | in every reachable state a kill signals exactly: the registered process; without one, the last run of the name if it is neither exited nor from another boot nor dead; else nobody |
| `RunLifecycle.AgentBox.RotateFinishedRun` | internal/agentbox/run_record.go:368-393 | record, log and sidecar move to the rotated stem |
| `RunFiles.SanitizeName` | internal/agentbox/process.go:541-556 | same length; letters, digits, `-`, `_` and `.` kept and every other character replaced by an underscore, so never a slash |
| `RunFiles.RotatedUnique` | internal/agentbox/run_record.go:368-393 | a rotated stem determines the name and the start second |
| `RunFiles.PathsDistinct` | internal/agentbox/run_record.go:178-195 | record, log and sidecar paths never coincide, whatever the stems |
| `RunFiles.ListingKeepsCurrent` | internal/agentbox/run_record.go:358-361 | a listing keeps exactly current records and drops every rotated one |
| `RunFiles.EndsInDotDigitsExactly` | internal/agentbox/run_record.go:356-361 | a name looks rotated exactly when it ends in a dot and one or more digits |
| `SignatureScan.ScanInbound` | experimental/ebpf-phaseA/netpolicy.bpf.c:301-331 | the id of the lowest enabled slot whose pattern occurs in the scanned window, 0 if none or too short, whatever the scratch buffer held |
| `SignatureScan.WindowIsLargest` | experimental/ebpf-phaseA/netpolicy.bpf.c:301-331 | the window is the largest of 256, 128, 64 and 32 bytes that fits the payload, or none |
| `SignatureScan.Loop` | experimental/ebpf-phaseA/netpolicy.bpf.c:318-330 | the flattened, bounded iteration finds the lowest match in the buffer |
| `SignatureScan.SigMatchAt` | experimental/ebpf-phaseA/netpolicy.bpf.c:262-299 | one callback: stops exactly on a hit at its slot and position, and records that slot's id |
| `SignatureScan.Compare` | experimental/ebpf-phaseA/netpolicy.bpf.c:279-296 | the masked compare is an exact compare: the mask never wraps |
| `SignatureScan.LowestMatchUnique` | experimental/ebpf-phaseA/netpolicy.bpf.c:262-331 | the specification of the scan determines its result |
| `PrefixTrie.LookupIsLongest` | experimental/ebpf-phaseA/netpolicy.bpf.c:68-101 | lookup is longest-prefix match (section 5.1 of RFC 4632) |
| `PrefixTrie.LookupIsTenantLookup` | experimental/ebpf-phaseA/netpolicy.bpf.c:68-101 | a lookup in the shared trie is one in the tenant's own table exactly when that table has a match or no entry shorter than a tenant id is a prefix of the tenant |
| `PrefixTrie.ScopedExactly` | experimental/ebpf-phaseA/netpolicy.bpf.c:68-101 | so for every address exactly when the tenant has a default entry or no such short entry |
| `PrefixTrie.OtherTenantsInvisible` | experimental/ebpf-phaseA/netpolicy.bpf.c:68-101 | tables that agree on one tenant's entries answer that tenant alike |
| `PrefixTrie.ShortEntryLeaks` | experimental/ebpf-phaseA/netpolicy.bpf.c:68-101 | finding: an instance of the failing side, a short entry that answers a tenant |
| `NetPolicy.TenantIsolation` | experimental/ebpf-phaseA/netpolicy.bpf.c:460-508 | edits to other tenants' entries never change a verdict |
| `NetPolicy.ExternalAllowedExactly` | experimental/ebpf-phaseA/netpolicy.bpf.c:460-508 | an external, non-metadata destination without a matching deny is allowed exactly when some allow CIDR of the sender's tenant contains it |
| `NetPolicy.ManagedAllowedExactly` | experimental/ebpf-phaseA/netpolicy.bpf.c:486-494 | a managed destination other than the metadata address is allowed exactly when it is the sender's own tenant's, intra traffic is on and no deny matches |
| `NetPolicy.MetadataNeedsOptIn` | experimental/ebpf-phaseA/netpolicy.bpf.c:486-492 | the metadata address is reached only with the opt-in, whatever the allow list |
| `NetPolicy.MetadataIs` | experimental/ebpf-phaseA/netpolicy.bpf.c:53-55 | the metadata address is 169.254.169.254 octet by octet |
| `NetPolicy.NarrowDenyShadowsWide` | experimental/ebpf-phaseA/netpolicy.bpf.c:460-474 | finding: a narrower deny entry for another port hides a wider one that would apply |
| `NetPolicy.PatchedExactly` | experimental/ebpf-phaseA/netpolicy.bpf.c:460-474 | a destination is patched exactly when the longest deny entry over it names its port, or any, and its protocol, or any |
| `NetPolicy.MirrorSharesEntry` | experimental/ebpf-phaseA/netpolicy.bpf.c:342-404 | a packet and its mirror land on one flow entry, and two packets share one exactly when they are mirrors |
| `NetPolicy.AccountingConserves` | experimental/ebpf-phaseA/netpolicy.bpf.c:342-404 | from empty maps, over any interleaving of both hooks, packets and bytes summed over all entries equal those seen, per direction, as 64-bit counters |
| `NetPolicy.EntryExactly` | experimental/ebpf-phaseA/netpolicy.bpf.c:342-404 | over any interleaving each flow has an entry exactly when a packet touched it, with that flow's own packets and bytes per direction as 64-bit counters and its first and last time |
| `NetPolicy.Programs.Ingress` | experimental/ebpf-phaseA/netpolicy.bpf.c:407-526 | accounts every managed packet, and drops exactly what the policy denies in enforce mode, with one event per denial; between managed containers a packet passes exactly with equal tenants, intra traffic on and no deny, so none passes between tenants in enforce mode, whatever the tries hold; others pass untouched |
| `NetPolicy.Programs.Egress` | experimental/ebpf-phaseA/netpolicy.bpf.c:539-615 | accounts every managed packet on the mirrored key, and drops exactly a scanned signature hit in enforce mode; with scanning on, whole TCP packets with a payload of 32 bytes or more are scanned; others pass |
| `NetPolicy.Programs.AccountFlow` | experimental/ebpf-phaseA/netpolicy.bpf.c:342-375 | adds one packet and its bytes to the flow's transmit side |
| `NetPolicy.Programs.AccountReply` | experimental/ebpf-phaseA/netpolicy.bpf.c:377-404 | adds one packet and its bytes to the flow's receive side |
| `RateLimiter.EvictionUnobservable` | internal/auth/rate_limit.go:69-110 | with a clock that does not run back, every call of every run is answered as by a limiter that never evicts |
| `RateLimiter.AllowsExactly` | internal/auth/rate_limit.go:69-101 | a failure is allowed exactly when every window that opens at an earlier failure of the source stays within 10 plus 6 per minute |
| `RateLimiter.BudgetHolds` | internal/auth/rate_limit.go:69-101 | over any interval of any run a source is allowed at most 10 + 6 * (t2 - t1) failures, time in minutes |
| `RateLimiter.TokensAreLeastSlack` | internal/auth/rate_limit.go:69-101 | the bucket level is the least slack over all windows, capped at the burst |
| `RateLimiter.BucketIsTokens` | internal/auth/rate_limit.go:69-101 | the bucket kept for a source is determined by that source's own history |
| `RateLimiter.AuthFailureLimiter.Allow` | internal/auth/rate_limit.go:69-101 | in numbers: allowed exactly with a token left of 10 for a new source, else of the last level plus 6 per minute capped at 10; the level drops by one if allowed; other buckets stay, but for idle ones past 1024 sources |
| `RateLimiter.AuthFailureLimiter.EvictLocked` | internal/auth/rate_limit.go:103-114 | exactly the buckets idle past the TTL go |
| `Capacity.Drainer.Drain` | internal/capacity/drain.go:156-235 | refused while one is under way; otherwise handles a prefix of the candidates in order, each from where the last ended, up to the first stop that succeeds past a cancellation, or all; tallies them; and takes at most the window (120 seconds by default) plus 15 seconds per handled candidate |
| `Capacity.Drainer.Handle` | internal/capacity/drain.go:178-228 | graceful while the window lasts, with one forced retry; forced after; the outcome is that of the stops made |
| `Capacity.HandledBy` | internal/capacity/drain.go:178-251 | which stop decides: one that succeeds within what is left of the window, or 15 seconds if forced, counts as asked for; a forced one that lasts longer has timed out; a graceful one that fails or outlasts the window is followed by a forced one |
| `Capacity.HandledTakes` | internal/capacity/drain.go:178-228 | a candidate ends at most 15 seconds past the later of its start and the deadline, and drains only within the window |
| `Capacity.Drainer.StopWithBudget` | internal/capacity/drain.go:238-251 | the stop's own result, or a timeout once the budget is spent |
| `Capacity.FaithfulIsNamed` | internal/capacity/drain.go:156-235 | what Drain handled is named after a prefix of its candidates, as the next two rows ask |
| `Capacity.EachInExactlyOne` | internal/capacity/drain.go:156-235 | each handled, distinctly named candidate is in exactly the one list its outcome names, others in none |
| `Capacity.CountsAddUp` | internal/capacity/drain.go:156-235 | the three lists together count each handled candidate once |
| `Capacity.ForcedStaysForced` | internal/capacity/drain.go:178-228 | once one candidate starts past the deadline all later ones are forced and none drains |
| `Capacity.AnyForcedExactly` | internal/capacity/drain.go:156-235 | the window counts as exceeded exactly when some candidate was forced from the start |
| `Capacity.DrainedIsAdvertised` | internal/capacity/drain.go:109-145 | as many candidates as idle guests counted, and a guest is a candidate exactly when it is idle |
| `Capacity.IdleExactly` | internal/capacity/capacity.go:154-185 | idle are exactly the running, non-core guests of no excluded class that were started at least their own threshold ago, 15 minutes if it is not positive |
| `Capacity.HostIdle` | internal/capacity/capacity.go:154-185 | counts of idle and of considered guests |
| `Capacity.DrainCandidates` | internal/capacity/drain.go:109-145 | the idle guests, in order, with the user name or the container name |
| `Capacity.Excludes` | internal/capacity/capacity.go:64-74 | a class is excluded exactly when it is named and listed |
| `TailLog.Tail` | internal/agentbox/tail_log.go:95-160 | for a file growing between reads: the content is exactly the file's bytes from start to end, at most 256 KiB; truncated exactly when full with time left; no result only after the first error or cancellation |
| `TailLog.ChainedCallsServeAll` | internal/agentbox/tail_log.go:95-160 | calls chained by end offset serve, put together, exactly the file's bytes from the first start to the last end |
| `TailLog.ExactGrows` | internal/agentbox/tail_log.go:95-160 | what was served stays what the file holds, however it grows |
| `Decimal.AtoiItoa` | internal/app/proxy.go:1046-1050 | parsing a printed integer gives it back, for every integer |
| `Decimal.AccumulateItoaExact` | internal/app/l4_proxy.go:664-669 | unchecked accumulation of a printed integer gives it back exactly when it is not negative |

## Left out

- HTTP transport, JSON, Caddy's admin API, Postgres: replaced by a configuration tree and a row sequence changed by atomic steps.  Failing requests and their retries are not modelled.
- SHA-256 itself: a function parameter.  Nanosecond times outside the 64-bit range are not modelled.
- The anchor's ticker and file sink: the anchor is one optional pair of checkpoint and root.
- EdgeManager.ProxyManager.EnsureBaseConfig: does not model a present http app without a servers key, or the timeout and order of the listener wrappers.
- EdgeManager.ProxyManager.ConfigureClientIP: takes netip.ParsePrefix as a function parameter, and trims ASCII blanks only.
- RouteSync.RouteSyncJob.Run: the job's goroutine, stop channel and ticker are one input per tick.
- RunLifecycle.AgentBox.Spawn: does not model a failing file operation or a child that does not start.
- RunLifecycle.AgentBox.Kill: does not model the choice of signal and the wait for the process to go.
- RunLifecycle: shell execution, FIFOs, log framing, flock and signal delivery are kept only as the order of their durable effects; the sidecar's time and its clock fallback are not modelled.
- HashChain.HashWriter.WriteField: the running hash is the byte string written so far.
- NetPolicy: packet headers are whole or missing, IP options are not modelled (as in the code), and neither is eviction from the flow map or the per-CPU split of counters.
- Layer4.DispatchIsMap: matches SNI by equality; Caddy's own wildcard SNI matching is not modelled.
- TailLog.Tail: the deadline is the number of iterations it leaves room for; path validation and the textual result header are not modelled.
- Capacity.Drainer.Drain: stop results and durations are an arbitrary function of the attempt, the user name and the force flag; the advertisement store and the time window of a policy are left out as easy.
- RateLimiter: client address extraction from a request is left out.
- DNS provider lookup and environment reading of ACME settings; auth tokens and contexts; the CLI, the web UI, plain record stores, buildpack and compose tooling.
