# wireport: a verified model of the gateway control plane

wireport runs a hub-and-spoke WireGuard network. A gateway keeps a table of nodes, hands out addresses and
Docker subnets, admits servers and clients through join tokens, and keeps a table of published services that
servers fill from container labels. This project models that control plane in Dafny and proves what holds
after every command of every run, under interleaving, and when steps fail.

`dafny verify dfyconfig.toml` checks everything.

## How it is built

The gateway database is a class (`Database.GatewayDatabase`) whose methods have the loops, flags, text
comparisons and early exits of the repository; each method is proved to do what a function on table values says
(`Registry`, `Admission`). Theorems about runs are then lemmas about those functions. The service table is built
the same way (`Services.ServiceTable` and the loops of `Reconcile`). Concurrent parts (the restart scheduler,
overlapping transactions, several servers reconciling at once) are state machines over their atomic steps.

| file | content |
|---|---|
| Common, Text | option and result types, counting; decimal text, splitting, trimming |
| Addresses | IPv4 addresses and networks: printing, parsing, prefix containment |
| Registry | the node table: allocation, creation, deletion, recomputation of peers and DNS |
| Routing | cryptokey routing over the written peers, end to end |
| Admission | `server new`, `client new`, gateway start, the join handler with its points of failure |
| Runs | runs of non-overlapping, failure-free commands and their invariant |
| Guarantees | what every such run guarantees |
| Outcomes | when commands admit and refuse, and what rows and tokens hold, column by column |
| Database | the repositories and commands as methods of a mutable object |
| Joining | one attempt to join when steps fail |
| Handlers | join handlers step by step, interleaved with one another and with everything else |
| Interleaving | allocation under concurrent transactions |
| Services, Reconcile | the service table; one reconciliation round |
| Convergence, Interference | repeated rounds of one server; several servers at once |
| Restart | the coalescing restart scheduler |
| Resolver | the upstream list of the gateway's DNS server |
| Aes, Ssh | AES-CBC framing; `user@host:port` texts |

A UUID, a WireGuard key pair and a certificate are one value `Fresh` drawn by the environment; a run is *fresh*
when no identifier or public key is drawn twice. A join token is the JSON of its request row in base64, so
equality of tokens is equality of rows. `Runs.World` adds history variables to the database: the table at the last
refresh, the servers removed since and ever, and the consumed requests.

## What the proofs found

- A reservation covers capacity, not a particular subnet. A pending request with a forced subnet loses it to an
  automatic request that joins first (`AutomaticTakesForced`, `ForcedAndAutomaticPending`); it joins exactly when
  the subnet is free at that moment (`ForcedJoinExactly`).
- A refused join has changed the database exactly when it failed after an insertion for which there was room
  (`AttemptExactly`): the node stays behind; with a forced subnet every retry of the token is then refused
  (`ForcedRetryStuck`), and so is every retry once the last address is used up (`LastAddressLeaks`).
- A token is answered again only by a handler that read its row before the first deletion (`SuccessLoadedFirst`),
  and such a handler, let run, does succeed if there is room for its node (`LoadedSucceeds`, `TokenAnsweredTwice`).
- With custom subnets routing is complete exactly when the prefixes fit (`RoutedAfterCreation`, `FitExactly`); the
  repository compares subnets by text only and accepts some that do not fit (`OverlapBreaksRouting`).
- `DeleteServer` does not refresh: the gateway keeps the peers of removed servers until the next creation
  (`PeerAgreement`), and their certificates for ever (`CertificateMap`).
- Allocation stays safe under concurrency exactly as long as every gateway creation that commits finds the table
  still empty (`AllocationSafe`), the guard that `CreateGateway` evaluates outside its transaction only; after one
  late commit there are two gateways for ever, both at 10.0.0.1 or the second at another address
  (`TwoStartsClash`, `ClashForever`).
- The gateway counts against the twelve Docker subnets though it has none: when the count says that none is left,
  one still is (`TotalAndAvailableDockerSubnets`).
- Editing the declared public address of a published container changes nothing, as long as no other valid
  container declares the address it occupies (`LabelChangeIgnored`).
- Two servers reconciling in turn, with nothing of theirs misplaced at the start, come to rest exactly when no
  valid containers of the two declare one address (`AlternationRestsExactly`); where one holds a contested address
  and the other has nothing published for its container, they take it from each other in every round
  (`SharedAddressFlaps`).
- `unpad` accepts more than RFC 5652 section 6.3 allows (`UnpadAccepts`).

## Model

| member | source | states |
|---|---|---|
| Addresses.AddressRoundTrip | app/internal/nodes/types/udpaddrmashable.go:8-14 | a dotted text parses to an address if and only if it is what IPToString prints for it; texts with colons are left out |
| Addresses.NetRoundTrip | app/internal/nodes/types/ipnetmarshable.go:14-50 | every printed network, of any prefix length 0 to 32, parses back to itself |
| Addresses.NetAcceptedExactly | app/internal/nodes/types/ipnetmarshable.go:14-50 | exactly which dotted texts are accepted and as which network: bare addresses as /32 unless a mask is demanded; signs, leading zeros and anything after a second slash pass; texts with colons are left out |
| Addresses.NetRefusedExactly | app/internal/nodes/types/ipnetmarshable.go:15-47 | which error a refused text gets: empty, no address, mask missing, mask not a number, mask out of range, in this order |
| Text.AtoiExactly | app/internal/nodes/types/ipnetmarshable.go:39-43 | exactly which mask texts are numbers: an optional sign and digits within 64 bits |
| Addresses.BareAddressRoundTrip | app/internal/nodes/types/ipnetmarshable.go:31-37 | a bare address reads back as /32, and is refused where a mask is demanded |
| Addresses.PrintNetInjective | app/internal/nodes/repository.go:589-593 | comparing printed networks is comparing networks |
| Addresses.PrintIPv4Injective | app/internal/nodes/repository.go:701-706 | comparing printed addresses is comparing addresses |
| Addresses.MapStringsToIPNetMarshables | app/internal/nodes/types/ipnetmarshable.go:66-86 | the loop returns the entries that parse after trimming, in order, dropping the others |
| Addresses.ParsedNetsMeans | app/internal/nodes/types/ipnetmarshable.go:66-86 | each text is trimmed and parsed on its own, and the results stand in order |
| Text.TrimMeans | app/internal/nodes/types/ipnetmarshable.go:70-70 | trimming removes all spaces at both ends and nothing else |
| Addresses.MapIPNetMarshablesToStrings | app/internal/nodes/types/ipnetmarshable.go:52-64 | one text per network, with or without its mask |
| Addresses.NothingDropped | app/internal/nodes/types/ipnetmarshable.go:66-86 | a list of texts in a form the registry writes is read back entry by entry: nothing is lost silently |
| Addresses.Contains12 | app/internal/nodes/repository.go:84-84 | membership in a /12, defined on the bits of the address, means the first octet and half of the second agree |
| Addresses.Contains16 | app/internal/nodes/repository.go:656-661 | membership in a /16 means the first two octets agree |
| Addresses.Contains24 | app/internal/nodes/repository.go:83-86 | membership in a /24 means the first three octets agree |
| Registry.FreeIPIsLowest | app/internal/nodes/repository.go:689-715 | the address handed out is free and the lowest free one; none is handed out only if all are taken |
| Registry.FreeSubnetIsLowest | app/internal/nodes/repository.go:649-677 | the same for 172.20.0.0/16 to 172.31.0.0/16 |
| Registry.FreeIPExists | app/internal/nodes/repository.go:680-716 | pigeonhole: below 254 rows an address is free |
| Registry.FreeIPExactly | app/internal/nodes/repository.go:630-638 | what the counter means: on a consistent table an address can be handed out if and only if the count of available ones is positive |
| Registry.FreeSubnetExists | app/internal/nodes/repository.go:640-678 | pigeonhole: below 12 servers an automatic subnet is free, whatever custom subnets exist |
| Registry.InsertServerEffect | app/internal/nodes/repository.go:284-383 | the transaction adds one consistent row with the lowest free address, the forced or lowest free subnet, the keys and certificate drawn for it and the gateway's control address, one certificate, and changes nothing else |
| Registry.InsertClientEffect | app/internal/nodes/repository.go:414-494 | the transaction adds one consistent client row with the keys and certificate drawn for it and the gateway's control address, one certificate, and changes nothing else |
| Registry.RefreshWellDefined | app/internal/nodes/repository.go:54-166 | on a consistent table the refresh never fails: in particular no server lacks a subnet |
| Registry.RefreshIdempotent | app/internal/nodes/repository.go:54-166 | refreshing twice is refreshing once, wherever it succeeds |
| Registry.RefreshFrame | app/internal/nodes/repository.go:87-156 | a refresh keeps the rows and rewrites only peers and DNS |
| Routing.LookupOnly | app/internal/nodes/repository.go:100-120 | if exactly one peer matches an address, longest-prefix lookup sends it there, wherever the peer stands in the list |
| Routing.PeersAreSpokes | app/internal/nodes/repository.go:100-120 | a peer is in the gateway's list if and only if it belongs to a client or server of the table |
| Routing.GatewaySendsToOwner | app/internal/nodes/repository.go:100-120 | the gateway sends an address with one owner to that owner, and no other peer matches it |
| Routing.GatewayRoutesOwned | app/internal/nodes/repository.go:100-120 | the gateway routes an address if and only if a node known to it owns the address |
| Routing.RefreshMeshes | app/internal/nodes/repository.go:87-156 | a refresh turns every consistent table into a mesh: the gateway lists all spokes, each spoke only the gateway |
| Routing.EndToEnd | app/internal/nodes/repository.go:79-153 | in every mesh with disjoint, tunnelled ownership, and an endpoint for spokes to send to, each client reaches each address of each server: all hops send and accept in both directions |
| Routing.RoutedExactly | app/internal/nodes/repository.go:79-153 | that condition is also necessary in a freshly refreshed table with a client |
| Routing.RoundTripExactly | app/internal/nodes/repository.go:79-153 | in every mesh, removed servers still listed included, exactly which address of which server which client reaches: the longest prefix among the listed rows decides, the later row between equals |
| Routing.FitExactly | app/internal/nodes/repository.go:580-596 | the condition over all addresses is a test on prefixes, row against row: no two subnets overlap, no subnet holds another row's address, each subnet lies inside 172.16.0.0/12 or 10.0.0.0/24 |
| Routing.AutoIsRoutable | app/internal/nodes/repository.go:649-675 | automatic subnets always meet it |
| Runs.CreateServerEffect | app/internal/nodes/repository.go:275-403 | when a server is created and with what effect; a failed creation changes nothing |
| Runs.CreateClientEffect | app/internal/nodes/repository.go:405-514 | the same for a client |
| Runs.ServerRefusals | app/internal/nodes/repository.go:284-383 | why a server is not created: no gateway, no address, no automatic subnet, a subnet that does not parse or is taken, in the order of the checks |
| Runs.ClientRefusals | app/internal/nodes/repository.go:414-494 | why a client is not created: no gateway, or 254 rows |
| Runs.RoomForPending | app/internal/commands/local_server.go:42-59 | while pending requests are reserved, an address is free for each, and a subnet for each server request |
| Runs.JoinEffect | app/internal/commands/routes.go:318-484 | a token joins if and only if its request is pending and its forced subnet, if any, is free; a refused one changes nothing |
| Runs.StepKeepsInv | app/internal/commands/local_server.go:32-163 | every command keeps consistency, reservations, the certificate ledger and the mesh |
| Runs.RunKeepsInv | app/internal/commands/local_server.go:32-163 | so does every run |
| Guarantees.ReservationSound | app/internal/commands/local_server.go:33-59 | after every run nodes and requests are at most 254, servers, gateway and server requests at most 12, and every pending automatic request can join |
| Guarantees.PendingDrain | app/internal/commands/local_client.go:49-61 | any selection of pending automatic requests can be joined one after another, in any order, without a refusal |
| Guarantees.ForcedJoinExactly | app/internal/nodes/repository.go:333-342 | a pending request with a forced subnet joins if and only if no server holds that subnet |
| Guarantees.AutomaticTakesForced | app/internal/nodes/repository.go:333-345 | a forced request that could join is refused once an automatic request took its subnet |
| Guarantees.ForcedAndAutomaticPending | app/internal/commands/local_server.go:64-83 | a concrete run that reaches such a state |
| Guarantees.JoinedServerSubnet | app/internal/nodes/repository.go:331-349 | a joined server is the last row and has the subnet that was chosen |
| Guarantees.JoinConserves | app/internal/commands/routes.go:347-477 | a join removes exactly its request and its certificate, appends one node of its role with the keys, certificate and control address of its own draw, answers with that node, and leaves every other node's identity, key, address and subnet alone |
| Guarantees.StepContinues | app/internal/nodes/repository.go:284-383 | every command except a removal keeps the rows in order and adds at most one |
| Guarantees.AlwaysRouted | app/internal/nodes/repository.go:79-153 | after every run with automatic subnets and a gateway address that parses, removals included, every client reaches every live server and is answered |
| Guarantees.RoutedAfterCreation | app/internal/nodes/repository.go:580-596 | with custom subnets, right after a creation with a client in the table: everything is routed if and only if the prefixes fit and, if there is a server, the gateway's public address parses |
| Guarantees.ReachesExactly | app/internal/nodes/repository.go:785-795 | after any run, custom subnets and removed servers included, exactly which address of which live server which live client reaches |
| Guarantees.OverlapBreaksRouting | app/internal/commands/local_server.go:64-79 | a concrete run of four commands in which 172.20.1.0/24 is accepted next to 172.20.0.0/16 and not everything is routed |
| Guarantees.PeerAgreement | app/internal/nodes/repository.go:785-795 | after every run the gateway's peers are exactly the live spokes and the servers removed since the last refresh, and every spoke's only peer is the gateway |
| Guarantees.PeerPerSpoke | app/internal/nodes/repository.go:103-120 | every live server has its peer entry with exactly two allowed IPs, every live client with exactly one |
| Guarantees.ExactAfterCreation | app/internal/nodes/repository.go:389-393 | after a creation there is one peer per live spoke, in table order, and none besides |
| Guarantees.CertificateMap | app/internal/encryption/mtls/service.go:167-201 | after every run the certificates are those of live spokes, pending requests and removed servers; never of a consumed request |
| Guarantees.ClientConfigNeverStale | app/internal/nodes/repository.go:136-152 | the configuration a client got when it joined is what the registry would still write after any further commands |
| Guarantees.RefreshAlwaysDefined | app/internal/nodes/repository.go:54-166 | in every reachable table a refresh succeeds, is idempotent and keeps every row's identity |
| Guarantees.GatewayForever | app/internal/nodes/repository.go:171-187 | the gateway keeps its identity and 10.0.0.1, and stays the only one |
| Outcomes.AdmitsServerExactly | app/internal/commands/local_server.go:32-152 | exactly when `server new` admits a server: servers, gateway and pending server requests below 12, nodes and requests below 254, and no subnet text or one that parses and is free; with force the node is created, otherwise a token is issued, column by column; a refusal changes nothing and names the first gate that failed |
| Outcomes.AdmitsServerInRuns | app/internal/commands/local_server.go:42-89 | the same after every run |
| Outcomes.NoGatewayNoServer | app/internal/commands/local_server.go:100-109 | without a gateway row creation is refused and issuing a token dereferences nothing |
| Outcomes.AdmitsClientExactly | app/internal/commands/local_client.go:47-164 | exactly when `client new` admits a client on the gateway, and what it writes |
| Outcomes.NoGatewayNoClient | app/internal/commands/local_client.go:18-24 | without a current node no client is admitted |
| Outcomes.CountIsSize | app/internal/nodes/repository.go:42-52 | the counts of the gates are the numbers of rows of those roles |
| Outcomes.RequestsAreSize | app/internal/joinrequests/repository.go:77-86 | the count of server requests is the number of requests of that role |
| Outcomes.GatewayOfRun | app/internal/nodes/repository.go:219-244 | after every run the gateway row is, column by column, the one its first start asked for |
| Outcomes.StartIdle | app/internal/nodes/repository.go:718-737 | starting again returns the gateway that is there and changes nothing |
| Outcomes.SpokeConfiguration | app/internal/nodes/repository.go:67-152 | after every run each spoke has one peer: the gateway's key, the WireGuard address and port of the site it was started for, the fixed allowed IPs, keepalive 15; and the fixed DNS servers |
| Outcomes.GatewayResolvers | app/internal/nodes/repository.go:90-98 | after every run the gateway's DNS list is Docker's resolver and then the servers of the last refresh, in order |
| Outcomes.RowsAreDrawn | app/internal/nodes/repository.go:351-374 | after every run each server and client has the identifier, both keys and the certificate of one draw and the control address of the gateway |
| Outcomes.LabelsSet | app/internal/nodes/repository.go:861-882 | setting labels changes the labels of that row and nothing else, and is refused without such a row |
| Outcomes.SaveMeans | app/internal/nodes/repository.go:739-747 | a save replaces the row of that identifier in its place, or appends it |
| Outcomes.RefreshRefusedExactly | app/internal/nodes/repository.go:56-65 | exactly when a refresh fails and why: no gateway, no public endpoint, a server without a subnet |
| Database.GatewayDatabase.FilterNodes | app/internal/nodes/repository.go:42-52 | the loop selects the rows of the given roles, in order |
| Database.GatewayDatabase.GatewayDNSFromText | app/internal/nodes/repository.go:90-98 | the DNS list built as text and parsed back is Docker's resolver followed by all servers |
| Database.GatewayDatabase.PeerAllowedIPs | app/internal/nodes/repository.go:104-118 | the allowed IPs built as text and parsed back lose nothing |
| Database.GatewayDatabase.GatewayPeersFromText | app/internal/nodes/repository.go:100-120 | one peer per client and server; fails exactly when a server has no subnet |
| Database.GatewayDatabase.SpokeConfigFromText | app/internal/nodes/repository.go:126-152 | DNS and allowed IPs of a spoke, through text and back |
| Database.GatewayDatabase.RefreshedRow | app/internal/nodes/repository.go:87-155 | one pass of the loop rewrites one row as specified, and keeps its identifier |
| Database.GatewayDatabase.UpdateNodes | app/internal/nodes/repository.go:54-166 | the loop over saved rows yields the refreshed table, or leaves the table alone with the right error |
| Database.GatewayDatabase.IsDockerSubnetAvailable | app/internal/nodes/repository.go:580-596 | the text comparison loop decides whether a server or gateway holds the subnet |
| Database.GatewayDatabase.TotalAndAvailableDockerSubnets | app/internal/nodes/repository.go:618-628 | the count of available subnets is what the rows of servers and gateway leave of 12, and on a consistent table a subnet can be handed out as long as it is not negative |
| Database.GatewayDatabase.TotalAvailableWireguardClients | app/internal/nodes/repository.go:630-638 | the count of available addresses is what the total leaves of 254, and on a consistent table it is positive if and only if an address can be handed out |
| Database.GatewayDatabase.GetNextAssignableDockerSubnet | app/internal/nodes/repository.go:640-678 | the flagged scan over texts returns the lowest free subnet or the exhaustion error |
| Database.GatewayDatabase.GetNextAssignableWGPrivateIP | app/internal/nodes/repository.go:680-716 | the flagged scan over texts returns the lowest free address or the exhaustion error |
| Database.GatewayDatabase.CreateGateway | app/internal/nodes/repository.go:168-273 | creates the gateway only on a table without one |
| Database.GatewayDatabase.EnsureGatewayNode | app/internal/nodes/repository.go:718-737 | returns the gateway, creating it if there is none |
| Database.GatewayDatabase.InsertServerRow | app/internal/nodes/repository.go:284-383 | the transaction with its rollbacks |
| Database.GatewayDatabase.CreateServer | app/internal/nodes/repository.go:275-403 | insertion, refresh and reload, with every early exit |
| Database.GatewayDatabase.CreateClient | app/internal/nodes/repository.go:405-514 | insertion, refresh and reload, with every early exit |
| Database.GatewayDatabase.AddRequest | app/internal/commands/local_server.go:107-133 | certificate, gateway row and request row, in that order |
| Database.GatewayDatabase.ServerNew | app/internal/commands/local_server.go:32-152 | the admission gates, the forced-subnet checks and both ways to create |
| Database.GatewayDatabase.ClientNew | app/internal/commands/local_client.go:47-164 | the admission gate and both ways to create |
| Database.GatewayDatabase.Join | app/internal/commands/routes.go:318-477 | the handler's steps when none fails |
| Database.GatewayDatabase.ServerRemove | app/internal/commands/local_server.go:154-163 | afterwards no server has the identifier; exactly its row is gone, every other row is as it was, peers and DNS included, in the same order |
| Joining.AttemptRequests | app/internal/commands/routes.go:471-477 | a success deletes exactly the token's request; every other outcome leaves the requests alone |
| Joining.AttemptExactly | app/internal/commands/routes.go:318-490 | on every consistent table, whatever fails now or failed before: exactly when an attempt succeeds, and exactly when a refused attempt has changed the database, namely when the request was pending, the table had room for the node, and the failure came after the insertion; the table stays consistent |
| Joining.RefusalReasons | app/internal/commands/routes.go:318-355 | why an attempt in which nothing fails is refused: unknown token, differing token, wrong role, or the creation's reason |
| Joining.LastAddressLeaks | app/internal/nodes/repository.go:680-716 | a late failure that takes the last address makes every retry fail without effect |
| Joining.FailedAttemptLeaksNode | app/internal/commands/routes.go:349-396 | an attempt on any consistent table that fails after its insertion keeps the request and leaves one node more |
| Joining.ForcedTokenBlocked | app/internal/nodes/repository.go:340-342 | while a server holds its forced subnet a token is refused and nothing changes |
| Joining.ForcedRetryStuck | app/internal/commands/routes.go:349-355 | after a late failure on any consistent table a forced token is refused on every retry |
| Handlers.SuccessLoadedFirst | app/internal/commands/routes.go:318-484 | in every interleaving of handlers step by step, of failures and crashes, and of other transactions, a handler answered with success read its token's row before the first deletion of that row and was answered after it |
| Handlers.TokenAnsweredOnce | app/internal/commands/routes.go:318-484 | in every such interleaving a token is answered with success at most once if its own handlers do not overlap |
| Handlers.LateLoadRejected | app/internal/joinrequests/repository.go:53-65 | a handler that reads after the deletion is turned away |
| Handlers.LoadedSucceeds | app/internal/commands/routes.go:347-484 | a handler that has read the row and is let run succeeds if and only if the table has room for its node, though the row may be gone by then |
| Handlers.BothSucceed | app/internal/commands/routes.go:318-339 | two handlers that have both read the row of a client's token both succeed and make two nodes |
| Handlers.TokenAnsweredTwice | app/internal/commands/routes.go:318-484 | a run from the empty system in which one token is answered with success twice |
| Handlers.AttemptIsRun | app/internal/commands/routes.go:318-490 | a handler that nothing disturbs does what the attempt as a whole is said to do, at whatever step it fails |
| Handlers.HandlersKeepSafe | app/internal/nodes/repository.go:284-383 | with handlers interleaved step by step no two nodes share an address and no two servers a subnet |
| Interleaving.InterleavingKeepsSafe | app/internal/database/service.go:20-36 | every interleaving of transactions, and of the two reads that precede a gateway creation, in which a committing gateway creation finds the table empty keeps it consistent, with stale gateway rows saved in between |
| Interleaving.AllocationSafe | app/internal/nodes/repository.go:640-716 | with the gateway's check, the pick of its address and its commit as separate steps, from an empty table: no two nodes print the same address, no two servers the same subnet, and there is one gateway at 10.0.0.1, if and only if every gateway creation that committed found the table still empty |
| Interleaving.ClashForever | app/internal/nodes/repository.go:739-747 | two gateways are never repaired by anything that follows |
| Interleaving.TwoStartsClash | app/internal/nodes/repository.go:171-187 | two runs that meet the failing case: both creations pick on the empty table and own 10.0.0.1, or the second picks after the first commit and owns 10.0.0.2 |
| Interleaving.StartIsRun | app/internal/nodes/repository.go:168-253 | a gateway creation that nothing interrupts does what the operation as a whole does |
| Services.ViewAfterSave | app/internal/publicservices/repository.go:17-35 | saving is a map update at the public address, owner and parameters included |
| Services.ViewAfterDelete | app/internal/publicservices/repository.go:51-59 | deleting removes that key and nothing else |
| Services.TableInvariant | app/internal/publicservices/repository.go:75-129 | over every sequence of commands public addresses stay unique and no service holds a parameter twice |
| Services.AddThenRemove | app/internal/publicservices/repository.go:75-129 | removing a parameter that was just added restores the whole table |
| Services.PublishMeans | app/internal/commands/local_service.go:11-21 | publishing leaves the given owner's row at the address, without parameters, and every other row as it was |
| Services.AddParamExactly | app/internal/publicservices/repository.go:75-96 | adding succeeds exactly when the service exists without the parameter; then it is appended and nothing else changes |
| Services.RemoveParamExactly | app/internal/publicservices/repository.go:98-129 | removing succeeds exactly when the service holds the parameter, wherever it stands; then exactly it is cut out of the list and nothing else changes |
| Services.ServiceTable.SaveService | app/internal/publicservices/repository.go:17-35 | the look-up and the create or overwrite that follows are the upsert |
| Services.ServiceTable.DeleteService | app/internal/publicservices/repository.go:51-59 | removes the row and tells whether there was one |
| Services.ServiceTable.AddServiceParam | app/internal/publicservices/repository.go:75-96 | refuses a duplicate, otherwise appends |
| Services.ServiceTable.RemoveServiceParam | app/internal/publicservices/repository.go:98-129 | rebuilds the list without the parameter, or reports that it was not there |
| Reconcile.FilterServicesPublishedByNode | app/internal/commands/local_server.go:250-258 | the loop selects the services of one node |
| Reconcile.ServicesToUnpublish | app/internal/commands/local_server.go:292-304 | the loop plans an unpublish call for each own service without both labels |
| Reconcile.ServicesToPublish | app/internal/commands/local_server.go:306-355 | the loop plans a publish call for each valid container that no own service names |
| Reconcile.ReconcileGatewayServicesWithDockerLabels | app/internal/commands/local_server.go:262-377 | the whole round: one snapshot, then unpublish, then publish |
| Reconcile.OrphansLeave | app/internal/commands/local_server.go:293-366 | the unpublish phase removes exactly the own services lacking labels and touches no other row |
| Reconcile.RoundHasEffect | app/internal/commands/local_server.go:288-376 | an uninterrupted round, address by address: new containers take theirs, orphans go, everything else stays |
| Reconcile.NewContainerPublished | app/internal/commands/local_server.go:309-376 | after a round a container not yet published has its row, field by field: owner, the parsed local label as local address, the parsed public label as public address, no parameters |
| Reconcile.OtherAddressesKept | app/internal/commands/local_server.go:293-366 | at every other address exactly the node's services that lost a label or their container are gone |
| Convergence.RoundProgress | app/internal/commands/local_server.go:288-376 | after the first round, a round settles the table or strictly lowers the number of misplaced own services |
| Convergence.SettledMeansIdle | app/internal/commands/local_server.go:293-355 | settled, that is every own service labelled and every valid container published, if and only if the next round plans no call |
| Convergence.RoundsConverge | app/internal/commands/local_server.go:262-377 | after two rounds more than there were misplaced services the table is settled and no longer changes, whatever the listing order |
| Convergence.RoundsKeepOnePerHost | app/internal/commands/local_server.go:309-320 | at most one service per container stays at most one |
| Convergence.Handover | app/internal/commands/local_server.go:357-376 | an address whose container vanished and which one new container declares ends the round with the new one's own local address |
| Convergence.LabelChangeIgnored | app/internal/commands/local_server.go:310-320 | a published service whose container keeps its labels never moves, however its public label is edited, as long as no other valid container declares the address it occupies |
| Interference.OwnersDoNotInterfere | app/internal/commands/routes.go:207-219 | in every interleaving of single calls, parameter changes included, in which each address has one user, each owner's rows and outstanding calls evolve as if it were alone |
| Interference.ConvergesAmongOthers | app/internal/commands/local_server.go:262-377 | in every such interleaving a server with fixed labels whose calls succeed has its services settled once it has made two rounds more than it had misplaced services |
| Interference.NobodyTouchesOthers | app/internal/commands/routes.go:207-219 | where each address has one user, no single step changes a row of anyone but its actor |
| Interference.RoundSparesExactly | app/internal/commands/local_server.go:306-376 | a round leaves every service of another server as it is if and only if none sits at an address that a new container is about to take |
| Interference.SharedAddressFlaps | app/internal/publicservices/repository.go:32-34 | two servers whose containers declare one address, one holding it and the other having nothing published for its container, take it from each other in every round |
| Interference.AlternationRestsExactly | app/internal/publicservices/repository.go:17-35 | two servers reconciling in turn, from a table with nothing of theirs misplaced, come to rest if and only if no valid containers of the two declare one address; then after one round each |
| Restart.NoRequestLost | app/internal/networkapps/service.go:67-99 | in every interleaving each request is queued, in the worker's hand, or had a restart begun at least the delay after it; restarts never overlap nor outnumber requests, and the drop branch is never taken |
| Restart.FromStart | app/internal/networkapps/service.go:58-63 | this holds from the initial state on |
| Restart.DelayIsFirst | app/internal/networkapps/service.go:67-80 | every restart waits for the delay of the first call; later calls do not change it |
| Restart.SendCounts | app/internal/networkapps/service.go:91-98 | no call is ignored: it is on record and leaves a token queued, whether or not one was queued before |
| Restart.EveryRequestEventuallyServed | app/internal/networkapps/service.go:70-87 | in every order of worker and clock without new requests: at most two more restarts and seven worker steps, a step to make while not at rest, and at rest every request has been served |
| Resolver.IpsToDNS | app/internal/nodes/types/node.go:29-44 | the loop renders the addresses that are not ignored, in order, joined by blanks |
| Resolver.UpstreamsSplit | app/internal/nodes/types/node.go:35-41 | each entry is kept or ignored on its own, in order |
| Resolver.UpstreamsAgree | app/internal/templates/configs/coredns/corefile.hbs:5 | after every run the list is exactly the servers of the last refresh, each once, in table order |
| Resolver.UpstreamsAfterCreation | app/internal/nodes/repository.go:91-98 | after a creation it is exactly the live servers |
| Aes.UnpadPad | app/internal/encryption/aes/service.go:15-36 | unpad undoes pad on every text |
| Aes.UnpadAccepts | app/internal/encryption/aes/service.go:22-36 | exactly what unpad accepts, and exactly when that is a whole padding |
| Aes.CBCRoundTrip | app/internal/encryption/aes/service.go:79-81 | chaining is undone block by block, with the length kept |
| Aes.CBCBlock | app/internal/encryption/aes/service.go:55-56 | each cipher block is the encryption of the plain block combined bytewise with the block before it, or the IV |
| Aes.EncryptDecrypt | app/internal/encryption/aes/service.go:38-84 | DecryptAES recovers every message, and the ciphertext is 16 + 16 * (n / 16 + 1) bytes long |
| Aes.DecryptRefusedExactly | app/internal/encryption/aes/service.go:61-84 | exactly which texts are not decrypted and with which error: bad key, shorter than a block, ragged, nothing behind the IV, a bad count |
| Aes.CryptBlocks | app/internal/encryption/aes/service.go:55-56 | the in-place loop over the buffer writes the chained blocks behind the IV |
| Aes.Encrypt | app/internal/encryption/aes/service.go:38-59 | the buffer filled in place is the specified ciphertext |
| Ssh.AcceptedExactly | app/cmd/server/commands/utils.go:39-88 | exactly which texts are accepted, and as which user, host and port |
| Ssh.RefusedExactly | app/cmd/server/commands/utils.go:44-66 | which error a bad port or a second colon gives |
| Ssh.LoginRefused | app/cmd/server/commands/utils.go:69-85 | which error a login without user, with two at-signs, or with an empty part gives |
| Ssh.HintRoundTrip | app/internal/commands/local_gateway.go:175-175 | whatever is accepted, printing it as the tool's hint and parsing that gives it back; the port is at most 65535, user and host are non-empty and free of ':' and '@' |

## Left out

- AddressRoundTrip: `net.ParseIP` also accepts IPv6 and IPv4-mapped texts such as ::ffff:172.20.0.0; only dotted texts are modelled.
- NetAcceptedExactly: only dotted texts, for the same reason.
- ConvergesAmongOthers: the server's own calls all succeed and it makes no manual publication meanwhile.
- Join: the method is the failure-free handler; failing steps are in the function `Admission.JoinAttempt` and in `Handlers`.
- ReservationSound: speaks of requests without a forced subnet; ForcedJoinExactly says exactly when the others join.
- PeerAgreement: for non-overlapping commands only; commands that overlap and each save the whole gateway row can lose each other's peers and certificates.
- CertificateMap: for non-overlapping commands only, for the same reason.
- OwnersDoNotInterfere: a call that fails on the gateway after its table write counts as a successful one here; only the table is modelled.
- DecryptAES is a function, not a loop over a buffer.
- The restart scheduler and the interleavings are state machines on values: a channel, a mutex and goroutines have no counterpart in Dafny's sequential methods.
- `ClientNew` when the current node is awaited: only the check itself, not the ten one-second retries.
- `buildSSHCredentials`, and the error texts of all commands.
- Time stamps, the interface's listen port and PostUp/PostDown texts.
- A missing certificate bundle, and failures of UUID, key, certificate and AES key generation; a certificate is one opaque text, and `GetClientBundlePublic` is asked only for the name just added.
- GORM specifics: `First` is taken in row order, a service with an empty host or zero port is saved like any other, and failing database reads occur only in the join handler.
- AddLabel and RemoveLabel: a command sets the whole label list, which both of them do.
- `url.Parse` inside `ParseAddress`: an arbitrary partial function from texts to addresses.
- HTTP, TLS, X.509, SSH, Docker, runit, file writing, JSON and base64.
- The text of WireGuard, Caddy and CoreDNS configurations, except the upstream list.
- Join-error diagnosis, role checks, status output, Cobra commands, and the five-attempt backoff of `wireport join`.
