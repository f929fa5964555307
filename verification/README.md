# Global VPC control plane: a verified model

This project models the durable protocols of a control plane for multi-site VPCs, and the IPv4 routing
transformation below it, and proves what they promise. `dafny verify dfyconfig.toml` checks all of it.

The system has an authority, a set of locations, and a Kube-OVN network inside each location. The authority
admits subnets into a VPC's prefix claims and compiles one snapshot per location. A syncer carries snapshots to
the location and statuses back. The location's controller turns the accepted snapshot into native subnets,
gateways and destination routes, and acknowledges the revision when it is done. Below it, destination routes are
compiled into a canonical plan and reconciled with the OVN northbound database in one guarded OVSDB transaction
(RFC 7047, section 5.2). Beside these run the allocators of network identifiers, gateway addresses and transit
blocks, the installer of the native extension, the rolling replacement of gateways, and the lock that pauses
native interconnection.

## How the model is built

- Objects whose methods update fields are classes (`NorthboundClient`, `Registry`, `LocationSyncer`,
  `LocalReconciler`, `Hook`, `DomainGate`). Loops are methods with invariants, each proved against a specification
  function or an exact condition.
- Protocols whose calls interleave are step machines over values: one event is one API request or one act of the
  environment, and any call may stop after any request. A lost response is a call that stops after its write.
- The API server is a map with unique identities and resource versions: creation fails when the name exists,
  updates are compare-and-swap, a listing is one moment's content.
- IPv4 addresses are integers below 2^32, prefixes are an address and a length, and texts are the only spelling
  the parsers accept. Digests are injective in what they are computed over.
- What an operation accepts, computes and writes is stated twice: by the function its method is proved against, and in
  the `...Meaning` modules and a few lemmas beside the functions in plain terms, that is in fields, addresses, texts and
  numbers, naming none of the functions in between.
- Where an expected property fails in the code, the project has the failing case and the exact condition:
  `GatewayRegistry.PoolsThatStayReadable`, `LedgerPools.LedgersThatStayReadable`, `Links.ConfinesExactlyHarmless`
  and `Links.TrustExactlyFresh` with `Recurrence.RecurrenceReleasesEarly`, `Discipline.SucceedsExactly` with
  `PoolChange.PoolWithdrawn`, `NetworkIds.SequenceReadCalm` with `RaceReportsMissingAnchor`,
  `Rollout.RolloutCompletes`, `NativeHook.Hook.Uninstall`, `Syncer.NeverStepsBackIff` with `StaleListingRecreates`.

| files | what they model |
|---|---|
| `Wrappers`, `Ordering`, `Ipv4`, `SiteConfig` | option and result types, sorting by a text key, addresses and prefixes |
| `DestinationPlan`, `DestinationForwarding`, `DestinationMeaning` | canonical routing intent, and what its rows forward |
| `Northbound`, `NorthboundMeaning`, `DestinationEmit`, `DestinationChange`, `DestinationDiff`, `DestinationRoutes`, `DestinationReconcile` | the database, transactions, and the reconciliation of routes and BFD sessions |
| `NetworkIds`, `NetworkIdMeaning` | the sharded identifier allocator |
| `Snapshot`, `SnapshotMeaning`, `Syncer`, `SiteController`, `SiteMeaning`, `Admission`, `AdmissionMeaning`, `Links`, `Authority`, `AuthorityMeaning`, `Discipline` | snapshots, claims, acknowledgement and withdrawal |
| `Recurrence`, `PoolChange` | two runs in which the authority goes wrong: a recurring snapshot, and a shrinking pool |
| `NativePlan`, `NativeHook`, `NativeMeaning` | installation receipts and the hook that acts on them |
| `GatewayRegistry`, `RegistryMeaning`, `SiteLedger`, `LedgerPools`, `LedgerRuns`, `LedgerMeaning`, `RuntimeContract`, `RuntimeMeaning` | the site allocators, and the contract between renderer and runtime |
| `TopologyLock`, `TopologyMeaning`, `Rollout` | the domain lock and the rolling replacement |

## Model

| member | source | states |
|---|---|---|
| Ipv4.ChildrenPartition | integration/kube-ovn/destinationroute/plan.go:161-170 | The two children of a destination are canonical, differ, cover exactly their parent and share no address |
| Ipv4.OverlapsIffShared | integration/kube-ovn/destinationroute/plan.go:86-90 | The overlap test on prefixes is true exactly when some address lies in both |
| Ipv4.ParsePrinted | integration/kube-ovn/destinationroute/plan.go:82-83 | Parsing what is printed gives the prefix and the address back, so comparing texts compares values |
| SiteConfig.Network | internal/siteconfig/config.go:195-204 | Accepts exactly the printed canonical unicast networks from /8 to /30, and returns the network printed |
| SiteConfig.Host | internal/siteconfig/config.go:206-212 | Accepts exactly the printed usable unicast hosts of a network, excluding network and broadcast address |
| Ipv4.PrefixRange | integration/kube-ovn/destinationroute/plan.go:86-90 | A prefix holds exactly the addresses from its network address to its last one, as many as its size |
| Ipv4.UnicastRanges | internal/siteconfig/config.go:195-204 | What counts as unicast, by the first two bytes of an address |
| Ipv4.Dotted | integration/kube-ovn/destinationroute/plan.go:82-83 | An address is printed as its four bytes in decimal |
| DestinationPlan.Compile | integration/kube-ovn/destinationroute/plan.go:74-134 | Accepts exactly the acceptable lists of intents (each good, pairwise disjoint, one set of timers per shared hop, at most 256) and returns their canonical plan |
| DestinationPlan.CheckIntent | integration/kube-ovn/destinationroute/plan.go:81-125 | One intent is refused exactly when it is bad by itself or does not fit those already taken |
| DestinationPlan.AddHops | integration/kube-ovn/destinationroute/plan.go:98-109 | Hops are accepted exactly when distinct, valid and consistent with recorded timers; the sessions then gain exactly these hops |
| DestinationPlan.CheckFields | integration/kube-ovn/destinationroute/plan.go:113-119 | Fields are accepted exactly when distinct and allowed |
| DestinationPlan.OverlapsAny | integration/kube-ovn/destinationroute/plan.go:86-90 | Finds an overlap exactly when some earlier destination overlaps |
| DestinationPlan.SessionsMeaning | integration/kube-ovn/destinationroute/plan.go:105-108 | A hop has a session exactly when some intent names it, with the timers of an intent that names it |
| DestinationPlan.SessionAgrees | integration/kube-ovn/destinationroute/plan.go:105-108 | In an accepted list every intent finds its own timers on each of its hops |
| DestinationPlan.NormalIsSetEquality | integration/kube-ovn/destinationroute/plan.go:120-123 | Two intents have the same normal form exactly when they differ in the order of hops and fields only |
| DestinationPlan.CompileForgetsOrder | integration/kube-ovn/destinationroute/plan.go:74-134 | Acceptance and the whole plan do not depend on the order of intents, hops or fields |
| DestinationPlan.HashIdentifiesIntents | integration/kube-ovn/destinationroute/plan.go:126-133 | Plans with equal hashes come from the same set of intents, so different sets have different canonical arrays |
| DestinationPlan.CompileIsIdempotent | integration/kube-ovn/destinationroute/plan.go:74-134 | Compiling the routes of a plan is accepted and gives the same plan |
| DestinationPlan.CidrIdentifies | integration/kube-ovn/destinationroute/plan.go:86-90 | In an accepted list a destination text belongs to one intent, so sorting by it is canonical |
| DestinationPlan.ReachableGateway | integration/kube-ovn/destinationroute/plan.go:138-159 | True exactly when some connected network has the hop as an ordinary host: not its own, network or broadcast address |
| DestinationMeaning.AcceptableMeans | integration/kube-ovn/destinationroute/plan.go:74-134 | In plain terms: a list is accepted exactly when it has at most 256 intents, each a printed canonical unicast prefix of length 1 to 31 with 2 to 64 distinct unicast hops outside it, timers in range and 1 to 7 of the seven known fields, no two share an address, and intents that share a hop agree on timers |
| DestinationMeaning.RoutesMean | integration/kube-ovn/destinationroute/plan.go:120-133 | In plain terms: the routes of a plan are the intents in the order of their destinations, each with the same hops and fields in order, under the digest of exactly these routes |
| DestinationMeaning.ReachableMeans | integration/kube-ovn/destinationroute/plan.go:138-159 | In plain terms: a hop is reachable exactly when it is an address strictly inside a network of an ordinary port, not the port's own and not the last one of a network of more than two addresses |
| DestinationForwarding.GuardPrefix | integration/kube-ovn/overlay/pkg/ovs/ovn-nb-destination-route.go:150-152 | The guard row covers exactly its destination |
| DestinationForwarding.ChildPrefix | integration/kube-ovn/destinationroute/plan.go:163-170 | Each child row is one bit longer than its destination, and together they cover exactly it |
| DestinationForwarding.ForwardsInside | integration/kube-ovn/overlay/pkg/ovs/ovn-nb-destination-route.go:66-95 | With the desired rows in place and no foreign row at or within a destination, longest-prefix match sends every address of it to exactly its intent's live hops, or to discard when none is live |
| DestinationForwarding.ForwardsOutside | integration/kube-ovn/overlay/pkg/ovs/ovn-nb-destination-route.go:66-95 | An address outside every destination is forwarded as the other owners' rows alone would |
| DestinationForwarding.UnmatchedRowsDrop | integration/kube-ovn/overlay/pkg/ovs/ovn-nb-destination-route.go:147-160 | Rows that match an address in no session state given have no part in its forwarding decision |
| DestinationRoutes.ReadPorts | integration/kube-ovn/overlay/pkg/ovs/ovn-nb-destination-route.go:44-60 | Whether the dedicated BFD port is ready, and the networks of all ordinary ports |
| DestinationRoutes.CheckConnected | integration/kube-ovn/overlay/pkg/ovs/ovn-nb-destination-route.go:66-73 | A destination is refused exactly when a connected network overlaps it |
| DestinationRoutes.CheckForeign | integration/kube-ovn/overlay/pkg/ovs/ovn-nb-destination-route.go:74-93 | A destination is refused exactly when another owner's main-table destination route lies at or within it, in the terms of `DestinationMeaning.ObstructsMeans`; covering default and aggregate routes never refuse it |
| DestinationMeaning.ObstructsMeans | integration/kube-ovn/overlay/pkg/ovs/ovn-nb-destination-route.go:74-93 | In plain terms: a row hinders a destination exactly when it is in the main table, routes by destination, and leads to a prefix that shares an address with it and is not shorter |
| DestinationRoutes.CheckPlan | integration/kube-ovn/overlay/pkg/ovs/ovn-nb-destination-route.go:44-95 | No refusal exactly when port, gateways, networks and foreign rows all permit the plan |
| DestinationRoutes.MatchSessions | integration/kube-ovn/overlay/pkg/ovs/ovn-nb-destination-route.go:105-118 | Succeeds exactly when every session of a wanted tuple is this owner's and unique; then yields all of them by hop |
| DestinationRoutes.EditSessions | integration/kube-ovn/overlay/pkg/ovs/ovn-nb-destination-route.go:119-146 | The emitted operations give every hop one session with its timers, reusing existing ones; they are waits only exactly when nothing is created or retimed |
| DestinationRoutes.CreateHop | integration/kube-ovn/overlay/pkg/ovs/ovn-nb-destination-route.go:124-132 | A new session is emitted behind a wait for the absence of its tuple |
| DestinationRoutes.KeepHop | integration/kube-ovn/overlay/pkg/ovs/ovn-nb-destination-route.go:133-145 | An existing session is kept behind a wait for its identity, and retimed only when its timers differ |
| DestinationMeaning.EditsMean | integration/kube-ovn/overlay/pkg/ovs/ovn-nb-destination-route.go:119-146 | In plain terms: for every hop the one session of its tuple is kept under its labels and retimed only when its timers differ; without one a session is created with the plan's timers and the owner's labels |
| DestinationDiff.BuildDesired | integration/kube-ovn/overlay/pkg/ovs/ovn-nb-destination-route.go:147-160 | The table filled by key holds exactly the desired rows |
| DestinationDiff.KeyIdentifies | integration/kube-ovn/overlay/pkg/ovs/ovn-nb-destination-route.go:269-271 | No two desired rows share a key, so none is lost in the table |
| DestinationDiff.DiffRoutes | integration/kube-ovn/overlay/pkg/ovs/ovn-nb-destination-route.go:161-175 | Every owned row either is kept as the one row under its key or is marked for removal behind a wait on its ownership; nothing is removed when all is as desired |
| DestinationDiff.InsertRoutes | integration/kube-ovn/overlay/pkg/ovs/ovn-nb-destination-route.go:176-184 | One new row per missing desired row |
| DestinationDiff.DiffReconciles | integration/kube-ovn/overlay/pkg/ovs/ovn-nb-destination-route.go:161-184 | Rows kept and rows inserted are together the desired ones, each exactly once, and no change is made when they were already there |
| DestinationRoutes.RetireSessions | integration/kube-ovn/overlay/pkg/ovs/ovn-nb-destination-route.go:199-231 | Refused exactly when a leftover session still has a consumer; otherwise emits the guarded deletion of exactly the leftover ones |
| DestinationRoutes.PlanRoutes | integration/kube-ovn/overlay/pkg/ovs/ovn-nb-destination-route.go:147-198 | The route part removes and adds rows so that the owned rows become the desired ones |
| DestinationRoutes.PlanTransaction | integration/kube-ovn/overlay/pkg/ovs/ovn-nb-destination-route.go:20-231 | Succeeds exactly for accepted views and plans; each refusal names a condition that holds; the operations carry out the required change on any database |
| DestinationMeaning.AcceptsMeans | integration/kube-ovn/overlay/pkg/ovs/ovn-nb-destination-route.go:20-231 | In plain terms: the databases and plans that are accepted, exactly: port, hops, networks and rows of others as required of the router, sessions on the port to a hop of the plan this owner's and one per hop, leftover sessions referred to by the owner's rows of this router alone |
| DestinationMeaning.CoveringRowsPermitted | integration/kube-ovn/overlay/pkg/ovs/ovn-nb-destination-route.go:88-91 | With everything else in order, rows of other owners that cover whole destinations or lead elsewhere never cause a refusal |
| DestinationEmit.RouterEditRuns | integration/kube-ovn/overlay/pkg/ovs/ovn-nb-destination-route.go:185-198 | The two mutations of the route set remove and add exactly the named rows |
| DestinationEmit.TransactionRuns | integration/kube-ovn/overlay/pkg/ovs/ovn-nb-destination-route.go:96-231 | The whole sequence commits exactly when every wait holds, and then has exactly the effect of the change, on any database with unused names |
| Northbound.RunAppend | integration/kube-ovn/overlay/pkg/ovs/ovn-nb-destination-route.go:243 | A transaction runs its operations in order and fails as a whole as soon as one fails |
| Northbound.WaitsChangeNothing | integration/kube-ovn/overlay/pkg/ovs/ovn-nb-destination-route.go:232-242 | Operations that are all waits never change the database |
| NorthboundMeaning.WaitsMean | integration/kube-ovn/overlay/pkg/ovs/ovn-nb-destination-route.go:250-267 | Each wait holds exactly for a database of which it says the truth, and changes nothing |
| NorthboundMeaning.CommitMeans | integration/kube-ovn/overlay/pkg/ovs/ovn-nb-destination-route.go:243 | A failed transaction leaves everything; a successful one drops exactly the routes no router refers to and the references to missing sessions |
| NorthboundMeaning.DecisionMeans | integration/kube-ovn/overlay/pkg/ovs/ovn-nb-destination-route.go:66-95 | Traffic to an address goes exactly to the next hops of the rows that take it with the longest prefix |
| DestinationChange.ChangeReconciles | integration/kube-ovn/overlay/pkg/ovs/ovn-nb-destination-route.go:96-243 | On the database it was computed from every wait holds, and the commit leaves owned rows in bijection with guard and children, owned sessions exactly the plan's with their timers, no dangling reference, and everything of other owners untouched |
| DestinationReconcile.NorthboundClient.ReconcileDestinationRoutes | integration/kube-ovn/overlay/pkg/ovs/ovn-nb-destination-route.go:20-244 | For any reading and any server state: refused with a true reason and nothing changed, or committed as a whole exactly when the waits hold; a current reading always ends reconciled |
| DestinationReconcile.SecondRunWritesNothing | integration/kube-ovn/overlay/pkg/ovs/ovn-nb-destination-route.go:161-183 | On its own result the controller computes no write |
| DestinationReconcile.SecondRunAccepted | integration/kube-ovn/overlay/pkg/ovs/ovn-nb-destination-route.go:44-95 | What was accepted once is accepted again on its own result |
| DestinationReconcile.HoldsIffCurrent | integration/kube-ovn/overlay/pkg/ovs/ovn-nb-destination-route.go:250-267 | The waits hold exactly when the router's route set, every wanted session tuple and the ownership of every touched row are what was read |
| DestinationReconcile.DestinationsForwarded | integration/kube-ovn/overlay/pkg/ovs/ovn-nb-destination-route.go:147-198 | After a reconciliation every address of every destination is spread over exactly its live gateways, or discarded when none is up, for every session state |
| DestinationReconcile.ElsewhereUnchanged | integration/kube-ovn/overlay/pkg/ovs/ovn-nb-destination-route.go:66-95 | At an address no destination of the plan contains and no earlier row of the owner matches, whatever those rows were, the forwarding decision is the one made before, and other routers keep their rows |
| DestinationReconcile.OutsideBothPlans | integration/kube-ovn/overlay/pkg/ovs/ovn-nb-destination-route.go:66-95 | In particular outside every destination of the plan installed before and of the new one |
| DestinationMeaning.RowsMean | integration/kube-ovn/overlay/pkg/ovs/ovn-nb-destination-route.go:147-160 | In plain terms: after a reconciliation the owner's rows on the router are exactly one discarding guard per destination and one row per half and hop, each with its labels, fields, options and a session of that hop; none occurs twice |
| DestinationMeaning.SessionsMean | integration/kube-ovn/overlay/pkg/ovs/ovn-nb-destination-route.go:105-146 | In plain terms: the owner's sessions are exactly one per hop of the plan, on its port and with the timers of every intent naming it; sessions of others are as before |
| DestinationMeaning.RestMeans | integration/kube-ovn/overlay/pkg/ovs/ovn-nb-destination-route.go:185-231 | In plain terms: routers, their ports, the rows of other routers and the rows of others on this one stay as they were |
| NetworkIds.NeverReused | internal/platformcontroller/networkid.go:95-202 | Over every interleaving, with calls stopping anywhere and the sequence deleted at any time, an identifier recorded for a key stays recorded for it and is never recorded for another |
| NetworkIds.ReturnedIsRecorded | internal/platformcontroller/networkid.go:147-202 | A finished call answers every key with an identifier in range that is already recorded |
| NetworkIds.RunSound | internal/platformcontroller/networkid.go:37-203 | In every reachable state every recorded identifier was reserved for its key and lies below the anchored sequence, and no call ever finds a damaged claim, a duplicate or an invalid sequence |
| NetworkIds.RunCalm | internal/platformcontroller/networkid.go:57-145 | Without outside deletion of the sequence, no call ever reports a missing or regressed sequence or a changed identity |
| NetworkIds.SequenceReadCalm | internal/platformcontroller/networkid.go:106-145 | Reading the sequence after the claims can fail in a calm registry only by exhaustion, or by a missing anchor exactly when the anchor was read before, and the sequence after, another call's first reservation |
| NetworkIds.RaceReportsMissingAnchor | internal/platformcontroller/networkid.go:131-137 | A concrete interleaving in which a call is told the anchor is missing although by then it exists |
| NetworkIds.DeletionFreezes | internal/platformcontroller/networkid.go:112-145 | Once the anchored sequence is lost, no continuation of the run, however long, reserves anything again |
| NetworkIds.DistinctIdentifiers | internal/platformcontroller/networkid.go:229-239 | Whatever calls returned them, two keys have equal identifiers exactly when they are the same key; system numbers are private and link identifiers fit 24 bits |
| NetworkIds.ScanClaims | internal/platformcontroller/networkid.go:67-93 | Passes exactly when every claim is good and no identifier occurs twice, and then yields the highest; each defect reported is present |
| NetworkIds.SplitKeys | internal/platformcontroller/networkid.go:147-157 | Retained keys get their claims, the others are listed once each |
| NetworkIds.NumberMissing | internal/platformcontroller/networkid.go:178-181 | Missing keys get consecutive identifiers in order, retained ones keep theirs |
| NetworkIds.AssignIds | internal/platformcontroller/networkid.go:147-181 | The result of a call as a function of keys, claims read and sequence |
| NetworkIds.ReservedAbove | internal/platformcontroller/networkid.go:174-181 | A reservation only adds identifiers above every one reserved before |
| NetworkIds.CreateSequenceSound | internal/platformcontroller/networkid.go:113-120 | Creating the sequence keeps every invariant |
| NetworkIds.CreateAnchorSound | internal/platformcontroller/networkid.go:131-142 | Creating the anchor keeps every invariant, whoever else is running |
| NetworkIds.CreateShardSound | internal/platformcontroller/networkid.go:164-173 | Creating an empty shard keeps every invariant and changes no call's missing keys |
| NetworkIds.ReserveSound | internal/platformcontroller/networkid.go:174-181 | A compare-and-swap on the sequence reserves fresh identifiers for exactly the missing keys, or changes nothing |
| NetworkIds.RecordSound | internal/platformcontroller/networkid.go:182-201 | A compare-and-swap on a shard adds exactly the results that belong there, or changes nothing |
| NetworkIds.Registry.NetworkIDs | internal/platformcontroller/networkid.go:37-203 | A call with nothing else running succeeds exactly when enough identifiers are left, and then answers as `NetworkIdMeaning.ResultsMean` says, every identifier recorded |
| NetworkIds.Registry.ReadAll | internal/platformcontroller/networkid.go:57-145 | The reading part of an undisturbed call, creating sequence and anchor when there are none |
| NetworkIds.Registry.ReadClaimsAndAnchor | internal/platformcontroller/networkid.go:57-105 | The claims, found sound, and then the anchor, with nothing written |
| NetworkIds.Registry.FinishReady | internal/platformcontroller/networkid.go:164-202 | The writing part of an undisturbed call ends with everything recorded |
| NetworkIds.Registry.RecordAll | internal/platformcontroller/networkid.go:182-202 | The recording loop ends with every result recorded |
| NetworkIdMeaning.ResultsMean | internal/platformcontroller/networkid.go:147-181 | In plain terms: retained identifiers stay, and the keys without one get the next identifiers, one each, in the order of their names |
| NetworkIdMeaning.FitsMeans | internal/platformcontroller/networkid.go:161-163 | In plain terms: enough is left exactly when the next identifier and the number of keys without one come to at most 16777216 |
| NetworkIdMeaning.ListMeans | internal/platformcontroller/networkid.go:67-93 | In plain terms: what is read is taken exactly when every retained identifier is from 1 to 16777215, in its key's own shard, and retained once |
| NetworkIdMeaning.SequenceMeans | internal/platformcontroller/networkid.go:106-163 | In plain terms: what each reading of the sequence leads to, and when: missing, out of range, regressed, unanchored, replaced, exhausted, ready or done |
| NetworkIdMeaning.ReserveMeans | internal/platformcontroller/networkid.go:174-181 | A reservation waits for all shards, is refused exactly when the sequence is not the one read, and takes one identifier per key without one |
| NetworkIdMeaning.RecordMeans | internal/platformcontroller/networkid.go:182-201 | A shard is written exactly when it is the one read: what it held stays and the results that belong there are added |
| Snapshot.Build | internal/platformplan/plan.go:66-161 | Succeeds exactly for known classes, permitted locations, legal prefixes, own bindings and valid inventories, and then gives every location its snapshot |
| Snapshot.GroupSubnets | internal/platformplan/plan.go:83-97 | The VPC's subnets by location, refused exactly when one is misplaced or malformed |
| Snapshot.BuildAll | internal/platformplan/plan.go:102-160 | One snapshot per location in name order, refused exactly when an inventory that is read is invalid |
| Snapshot.BuildOne | internal/platformplan/plan.go:110-158 | One location's snapshot with its revision |
| Snapshot.ListPopulated | internal/platformplan/plan.go:103-108 | The locations that have a subnet |
| Snapshot.PopulatedListed | internal/platformplan/plan.go:103-108 | The populated locations are the sorted listing, without repetition, of those that have one of the VPC's subnets |
| Snapshot.ExportsOf | internal/platformplan/plan.go:119-123 | A location exports its subnets, except those being deleted whose removal it has acknowledged |
| Snapshot.CollectRemotes | internal/platformplan/plan.go:115-124 | The exports of every other location |
| Snapshot.WithdrawnAt | internal/platformplan/plan.go:163-176 | The loop that looks for an acknowledgement |
| Snapshot.WithdrawnMeans | internal/platformplan/plan.go:163-176 | With one binding per location a subnet is withdrawn exactly when its location has applied its current snapshot and no longer lists the native subnet |
| Snapshot.KeepLinks | internal/platformplan/plan.go:139-145 | Only links that end at the receiving location are shown |
| Snapshot.LinksShown | internal/platformplan/plan.go:139-145 | A gateway is shown with exactly its links that end at the receiving location, each as often as it has it |
| Snapshot.ShowInventory | internal/platformplan/plan.go:130-147 | An inventory is refused exactly when a gateway is malformed or repeated; otherwise it is shown without readiness |
| Snapshot.CollectPeers | internal/platformplan/plan.go:125-148 | The gateways of every other populated location, refused exactly when one of their inventories is invalid |
| Snapshot.RemotesListed | internal/platformplan/plan.go:149-152 | A snapshot's remote list is the sorted listing, without repetition, of everything exported elsewhere |
| Snapshot.ExportedOnce | internal/platformplan/plan.go:115-124 | Every subnet not yet withdrawn occurs exactly once in every other location's remote list, and a withdrawn one not at all |
| Snapshot.RemotesClearOfLocals | internal/platformplan/plan.go:115-124 | No remote prefix of a snapshot overlaps one of its local prefixes |
| Snapshot.PlanIsCanonical | internal/platformplan/plan.go:66-161 | For subnets with distinct UIDs, overlapping or not, whether there is a plan, and the plan, depend neither on the order of subnets or bindings nor on gateway readiness |
| SnapshotMeaning.BuildableMeans | internal/platformplan/plan.go:66-147 | In plain terms: there is a plan exactly when the class is known, every subnet of the VPC is at a permitted location with a printed canonical network of length 8 to 30, every binding is the VPC's own, and gateways other locations see have unicast endpoints, transit addresses, identities and nodes, none twice |
| SnapshotMeaning.HeaderMeans | internal/platformplan/plan.go:110-114 | In plain terms: a snapshot names its VPC, location, class and profile, and is a tombstone exactly when no subnet of the VPC is there |
| SnapshotMeaning.SealMeans | internal/platformplan/plan.go:53-62 | A snapshot carries the digest of exactly its own content |
| SnapshotMeaning.SubnetsMean | internal/platformplan/plan.go:83-97 | In plain terms: a snapshot lists exactly the VPC's subnets at its location, each with its own fields and the address after the first of its prefix as gateway, in the order of their UIDs |
| SnapshotMeaning.RemotesMean | internal/platformplan/plan.go:115-124 | In plain terms: its remote prefixes are exactly those of subnets elsewhere that are not going away or not yet acknowledged gone, each once, in order |
| SnapshotMeaning.PeersMean | internal/platformplan/plan.go:125-158 | In plain terms: its peers are the gateways of every other location with a subnet of the VPC, not ready and with exactly their links that end here, in order |
| SnapshotMeaning.LocationsMean | internal/platformplan/plan.go:98-108 | In plain terms: there is one snapshot per location of a binding or a subnet, and the authorized locations are exactly those with a subnet, both in ascending order |
| Syncer.LocationSyncer.Binding | internal/localcontroller/sync.go:69-126 | One binding's local copy and returned status afterwards, for every outcome of the local write and of the status write, and success exactly when it was not refused and both were stored |
| Syncer.LocationSyncer.Once | internal/localcontroller/sync.go:54-68 | Every listed binding is handled by itself, a refused or failing one stops no other, and an omitted one stays as it is |
| Syncer.FirstCopy | internal/localcontroller/sync.go:78-82 | Without a copy a proper listing makes one with its incarnation, generation and snapshot and an empty status |
| Syncer.TakesOver | internal/localcontroller/sync.go:95-112 | A newer listing of the copy's incarnation and VPC that revives nothing is taken over whole: snapshot and generation, under the old status |
| Syncer.ChangesExactly | internal/localcontroller/sync.go:70-112 | The copy's snapshot changes exactly when such a listing differs, the copy goes exactly for a proper listing of another incarnation once it is cleaned up, and otherwise nothing moves |
| Syncer.ReportKeeps | internal/localcontroller/sync.go:113-124 | The returned status keeps everything but the generations it is observed at |
| Syncer.SucceedsExactly | internal/localcontroller/sync.go:69-126 | A delivery succeeds exactly when its listing is proper, the copy need not be kept from it, what it asks for is stored and what it returns is taken |
| Syncer.AcceptedOnlyAdvances | internal/localcontroller/sync.go:92-112 | Within one incarnation, whatever listings arrive, generations never fall, one generation has one spec, deletion is never undone and the owner never changes |
| Syncer.ReplacedAfterCleanup | internal/localcontroller/sync.go:86-91 | A copy is replaced by one of another source only after its own acknowledged cleanup |
| Syncer.NeverStepsBackIff | internal/localcontroller/sync.go:78-112 | Removals included, an incarnation's accepted generations never fall, one generation keeps one content and deletion is never undone, exactly in the runs that store no listing of it behind its last accepted snapshot while the copy is absent |
| Syncer.ReplaysChangeNothing | internal/localcontroller/sync.go:70-112 | Over any run of listings that are foreign, malformed, or no newer than the accepted copy of the same incarnation, in any order and number, owner, generation and content of the accepted snapshot never move |
| Syncer.ObservedMeansApplied | internal/localcontroller/sync.go:113-120 | A returned status carries the authority's generation exactly when the applied content is the authority's, up to gateway readiness |
| Syncer.StaleListingRecreates | internal/localcontroller/sync.go:78-91 | A concrete run: after an incarnation's acknowledged cleanup at generation 2 two listings bring it back at generation 1 and no longer deleting |
| SiteController.LocalReconciler.Reconcile | internal/localcontroller/reconciler.go:92-270 | One pass makes one allowed move, leaves a binding of another location alone, and acknowledges the revision exactly when everything is as the snapshot wants it and the status can be written; a pass that may write either acknowledges, writes something that was not as wanted, or has something outside in its way |
| SiteController.LocalReconciler.RecoverNativeSubnets | internal/localcontroller/reconciler.go:275-346 | Lets the pass go on exactly when every name it has to do with is owned and recorded; otherwise records what was lost or stops |
| SiteController.LocalReconciler.CheckDraining | internal/localcontroller/reconciler.go:124-133 | Passes exactly when no draining subnet is in use, and tells whether any is active |
| SiteController.LocalReconciler.CheckRanges | internal/localcontroller/reconciler.go:154-167 | Passes exactly when no workload range overlaps the transit prefix or holds the BFD source |
| SiteController.LocalReconciler.Ensure | internal/localcontroller/reconciler.go:355-403 | Goes on exactly when the object exists, is owned, agrees field by field and is recorded; otherwise creates, corrects or records it, or stops |
| SiteController.LocalReconciler.Routes | internal/localcontroller/reconciler.go:448-484 | Goes on exactly when the native Vpc holds the canonical plan and its current generation is acknowledged with the plan's hash |
| SiteController.LocalReconciler.PublishReport | internal/localcontroller/reconciler.go:485-502 | Goes on exactly when the status already carries the report |
| SiteController.LocalReconciler.DeleteNative | internal/localcontroller/reconciler.go:535-570 | Goes on exactly when the object is gone and forgotten; deletes only an owned, unused one and forgets only a missing one |
| SiteController.LocalReconciler.Disconnect | internal/localcontroller/reconciler.go:639-679 | Goes on exactly when routes, gateways and transit record are gone, in this order |
| SiteController.LocalReconciler.Connect | internal/localcontroller/reconciler.go:198-256 | Goes on exactly when transit, gateways and acknowledged routes are in place |
| SiteController.LocalReconciler.Configure | internal/localcontroller/reconciler.go:124-269 | The stages of a snapshot that is not a tombstone all pass exactly when it is fully configured |
| SiteController.LocalReconciler.Remove | internal/localcontroller/reconciler.go:571-637 | The stages of a tombstone all pass exactly when nothing of the binding is left |
| SiteController.AcknowledgedIsExact | internal/localcontroller/reconciler.go:124-269 | Over every run of snapshots a location can rely on, when a pass acknowledges, the binding's native subnets are exactly the snapshot's active ones, plus transit when it has exports |
| SiteController.TombstoneMeansGone | internal/localcontroller/reconciler.go:571-637 | An acknowledged tombstone leaves no native object of the binding, recorded or not, and no gateway |
| SiteController.AcknowledgedRoutes | internal/localcontroller/reconciler.go:239-252 | With `SiteController.AcknowledgedDestinations`: the acknowledged routes are the canonical plan of exactly the snapshot's remote subnets over its registered gateways, and the acknowledged hash is that of no other set of destinations |
| SiteController.OthersUntouched | internal/localcontroller/reconciler.go:404-414 | No pass changes an object of another owner, or makes one vanish or change identity |
| SiteController.DeletionIsOrderly | internal/localcontroller/reconciler.go:257-268 | A deletion starts only for an unused, owned object, with routes and gateways withdrawn, or with connectivity fully in place when exports remain |
| SiteController.AcknowledgedDestinations | internal/localcontroller/reconciler.go:228-240 | An acknowledged snapshot with exports leaves one route per remote prefix, to exactly that prefix, over exactly the set transit addresses of the registered gateways, with timers 300/300/3 and the five fields |
| SiteController.HopsMean | internal/localcontroller/reconciler.go:230-235 | The hops are the transit addresses that are set, each as often as it is registered |
| SiteMeaning.ConvergedMeans | internal/localcontroller/reconciler.go:92-270 | In plain terms: when a pass acknowledges, exactly, in the fields of every native object, the records, gateways and answers |
| SiteMeaning.DestinationsMean | internal/localcontroller/reconciler.go:228-238 | In plain terms: one destination per remote prefix, over every transit address that is set |
| SiteMeaning.WantedMeans | internal/localcontroller/reconciler.go:168-204 | In plain terms: the fields each wanted object is given, and for which objects |
| SiteMeaning.RemovableMeans | internal/localcontroller/reconciler.go:571-679 | In plain terms: when an object may go: what must be gone before it, for a tombstone, for transit and for a draining subnet |
| SiteMeaning.MovesMean | internal/localcontroller/reconciler.go:92-270 | In plain terms: which moves a pass may make |
| SiteMeaning.ObjectsAfter | internal/localcontroller/reconciler.go:347-414 | What each move does to every native object |
| SiteMeaning.Unhindered | internal/localcontroller/reconciler.go:92-270 | Conditions on world and answers under which nothing stands in the way of a pass, so that it acknowledges or makes a useful write |
| SiteController.RunSound | internal/localcontroller/reconciler.go:110-120 | Over every such run every native subnet of the binding is one its snapshot knows, and what was acknowledged absent stays absent |
| Admission.AdmitSubnets | internal/platformcontroller/reconciler.go:153-214 | The pass over the subnets: one write to a finalizer, or the claims and accepted subnets |
| Admission.AdmitKeepsDisjoint | internal/platformcontroller/reconciler.go:166-213 | A pass only appends claims, keeps them pairwise disjoint, and every accepted subnet holds its claim |
| Admission.CheckSubnet | internal/platformcontroller/reconciler.go:166-195 | Accepts exactly valid subnets whose claim is unchanged, or that may claim and clash with no claim |
| Admission.ClashesAny | internal/platformcontroller/reconciler.go:187-194 | Finds a clash exactly when some claim overlaps |
| Admission.ValidateSubnet | internal/platformplan/plan.go:32-50 | Accepts exactly subnets of this VPC, at a known location, with a legal prefix inside one of its pools |
| Admission.AllowsCidr | internal/platformconfig/config.go:117-129 | True exactly when some pool contains the prefix |
| Authority.ClaimsAlwaysDisjoint | internal/platformcontroller/reconciler.go:153-214 | In every reachable state of every run the VPC's claims are pairwise disjoint |
| AuthorityMeaning.ClaimsShareNothing | internal/platformcontroller/reconciler.go:153-214 | In plain terms: in every run no two claims are of one subnet and no address lies in two claimed prefixes |
| Links.LinkRunSound | internal/localcontroller/sync.go:69-112 | At one location, in every run, statuses are reported in order and never run ahead of what was accepted, whatever is configured was asked for by a snapshot accepted since the last one applied, and once a tombstone is applied nothing is ever configured again |
| Links.ReportedWasApplied | internal/localcontroller/reconciler.go:50-67 | Every snapshot a status names was applied, while it was the accepted one, at some moment of the run |
| Links.TrustExactlyFresh | internal/platformplan/plan.go:53-62 | A matching applied revision means the latest snapshot is applied, whatever the location did, exactly when the latest content occurs nowhere earlier in its history |
| Links.ConfinesExactlyHarmless | internal/platformplan/plan.go:53-62 | A matching applied revision means nothing is configured beyond the latest snapshot, whatever the location did, exactly when nothing acceptable that was issued since an earlier occurrence of the latest content asks for more |
| Links.MatchConfines | internal/platformplan/plan.go:53-62 | For such a history a match also bounds whatever the location may still accept |
| Recurrence.RecurrenceReleasesEarly | internal/platformcontroller/reconciler.go:278-339 | For any three disjoint prefixes and any inventories of two gateways or more, a run of the whole system, every snapshot compiled from the accepted subnets and current bindings, in which a location's first snapshot recurs while it is busy with the one in between, so a deleted subnet is finalized and its claim released while that location still has the prefix configured |
| Recurrence.SceneExists | internal/platformcontroller/reconciler.go:278-339 | Such prefixes and inventories exist |
| Authority.WantedFits | internal/platformcontroller/reconciler.go:225-262 | The snapshot issued to a location is the compiler's for that location and names prefixes of accepted subnets only |
| Authority.RunSound | internal/platformcontroller/reconciler.go:153-339 | In runs that release claims only while every location's history is harmless, everything configured anywhere, and everything a location may still accept, is claimed; snapshots may recur otherwise |
| Authority.ConfiguredNeverOverlaps | internal/platformcontroller/reconciler.go:225-283 | In such runs nothing configured at any location, its binding in use or retired, overlaps anything else configured at any location, however far apart their snapshots are |
| Authority.ReleasedOnlyWhenWithdrawn | internal/platformcontroller/reconciler.go:315-339 | In such runs a claim is released only when every location has reported a snapshot as applied that, like its current one, names the prefix neither as own nor as remote, and nothing configured anywhere overlaps it |
| Authority.RetiredIsClean | internal/platformcontroller/reconciler.go:128-152 | In every run, with no condition on its snapshots, a location whose binding was ever retired has nothing configured and no native subnet, then and ever after |
| Authority.KeptDisjoint | internal/platformcontroller/reconciler.go:317-336 | The claims kept at a release are exactly those whose subnet is present, and stay disjoint |
| Authority.BuildNamesAccepted | internal/platformcontroller/reconciler.go:225 | A compiled snapshot names prefixes of accepted subnets only |
| Authority.AcceptedAreAdmitted | internal/platformcontroller/reconciler.go:225 | Subnets accepted under disjoint claims satisfy what the snapshot compiler relies on |
| AdmissionMeaning.AdmissibleMeans | internal/platformcontroller/reconciler.go:166-195 | In plain terms: a subnet is admissible exactly when it is this VPC's or nobody's, at a known location, inside one of its pools, and its claim is unchanged, or it has none, may get one and shares no address with any |
| AdmissionMeaning.AdmitMeans | internal/platformcontroller/reconciler.go:153-214 | What one more subnet does to a pass: guarded first, accepted and claimed, let go, or passed over |
| AdmissionMeaning.HolderAccepted | internal/platformcontroller/reconciler.go:166-203 | A listed, guarded subnet whose claim stands unchanged is accepted in every pass that admits |
| AuthorityMeaning.PublishMeans | internal/platformcontroller/reconciler.go:225-262 | A snapshot is issued exactly to the first location that has another one, of the same transport or none; it is the one wanted, and no other location is touched |
| AuthorityMeaning.FinalizeMeans | internal/platformcontroller/reconciler.go:284-301 | A finalizer goes exactly when every location has what is wanted and says it applied it, and the subnet's own no longer lists it |
| AuthorityMeaning.ReleaseMeans | internal/platformcontroller/reconciler.go:315-339 | Claims are released exactly then and when every holder was listed; those of subnets that still exist stay, each as often as before |
| AuthorityMeaning.RetireMeans | internal/platformcontroller/reconciler.go:128-152 | A binding is retired exactly when its location says it applied a tombstone and lists nothing any more |
| AuthorityMeaning.MatchMeans | internal/platformplan/plan.go:53-62 | A location matches exactly when its reported status names a snapshot of the content last issued |
| AuthorityMeaning.RevisionMeans | internal/platformplan/plan.go:53-62 | Two snapshots have one revision exactly when they differ at most in the readiness of gateways |
| Discipline.PresentOrAcknowledged | internal/platformcontroller/reconciler.go:153-314 | In every run a subnet that any snapshot of a binding ever had is still a public subnet of that location under its claim, or was acknowledged absent by the location, and no later snapshot undoes its deletion |
| Discipline.SucceedsExactly | internal/platformcontroller/reconciler.go:166-262 | The next snapshot of a location is one it can rely on, with no subnet dropped unacknowledged and none revived, exactly when the pass admits every subnet of its snapshot that is still public and not acknowledged absent |
| Discipline.SnapshotsSucceed | internal/localcontroller/reconciler.go:110-120 | In runs whose passes admit what they admitted before, whatever snapshot a location may accept next is one it can rely on |
| Discipline.AbsentExactly | internal/localcontroller/reconciler.go:257-269 | What a location has acknowledged absent grows exactly when it applies a snapshot, by what drains in it |
| Discipline.WantedMembers | internal/platformplan/plan.go:83-97 | A compiled snapshot lists exactly the accepted subnets of its location, as they stand |
| Discipline.FinalizedAbsent | internal/platformcontroller/reconciler.go:284-301 | A finalizer goes only after the subnet's own location acknowledged it absent |
| PoolChange.PoolWithdrawn | internal/platformcontroller/reconciler.go:166-203 | A run in which a location's pools no longer contain an admitted, applied subnet: its next snapshot drops the subnet unacknowledged |
| NativePlan.PreviousValid | internal/vpcctl/native.go:590-605 | The previous receipt of a valid one is valid by itself and is continued exactly |
| NativePlan.RootPlan | internal/vpcctl/native_lifecycle.go:391-396 | The walk to the root of a chain |
| NativePlan.ReceiptHasImage | internal/vpcctl/native_hook.go:132-140 | True exactly when some receipt of the chain records the image |
| NativePlan.RollbackIsPreviousState | internal/vpcctl/native_lifecycle.go:398-418 | Rolling an upgrade back restores exactly the state its previous receipt expects |
| NativePlan.ChainKeepsRest | internal/vpcctl/native.go:568-620 | Along a valid chain schema and template differ from the root's in the two properties and the one image only |
| NativePlan.UninstallIsRootState | internal/vpcctl/native_lifecycle.go:561-572 | Removing the two properties from any receipt's schema gives the root's schema, and the image written is the recorded immutable original, so the final check fails only after outside drift |
| NativeMeaning.BundleMeans | internal/vpcctl/native.go:499-547 | A bundle is valid exactly when it is one of the two pinned releases at its commit, with images known by digest |
| NativeMeaning.ValidMeans | internal/vpcctl/native.go:568-620 | A receipt is valid exactly when at most 32 others are below it, each is made on the installed state of the one before, and the first on a schema without the extension |
| NativeMeaning.ChainMeans | internal/vpcctl/native_lifecycle.go:391-396 | The first receipt of a chain, its length, whether it records an image, and the nearest that does |
| NativeMeaning.OriginalMeans | internal/vpcctl/native.go:499-547 | The immutable image a stock controller is known by: its own, or the proven base |
| NativeMeaning.RestoreMeans | internal/vpcctl/native_lifecycle.go:398-418 | What restoring leads to, and exactly when there is such a target |
| NativeMeaning.InstallableMeans | internal/vpcctl/native.go:657-739 | The exact states a plan can be installed from |
| NativeMeaning.UpgradesMeans | internal/vpcctl/native_lifecycle.go:151-198 | An upgrade is to another image of the same release and base, with room in the chain |
| NativeHook.PinnedKeepsSchemaFirst | internal/vpcctl/native.go:657-739 | Wherever a run stopped, the pinned receipt rules out a patched image without both schema properties |
| NativeMeaning.SchemaFirstMeans | internal/vpcctl/native.go:657-739 | In plain terms: a container that runs a patched image does so under both contract properties |
| NativeHook.BeforeIsPrevious | internal/vpcctl/native.go:594-598 | Before an upgrade is exactly its previous receipt's installed state |
| NativeHook.Hook.Save | internal/vpcctl/native_hook.go:107-130 | The receipt is replaced as a whole or not at all |
| NativeHook.Hook.Install | internal/vpcctl/native.go:622-760 | Schema first, then image; succeeds exactly from the untouched state the plan was made from or one it left itself, and every stop is partial or installed and can be installed from again |
| NativeHook.Hook.Restore | internal/vpcctl/native_lifecycle.go:422-559 | Image first, then schema; success means exactly the restoration target; from any exact state of the receipt only a refused write can stop it, and an upgrade not in force, never applied or already rolled back, always does |
| NativeHook.Hook.SettlePending | internal/vpcctl/native_hook.go:193-216 | A pending receipt is finished or reversed, or the run stops with the receipt still pinning the cluster and, if it could be resumed before, resumable still |
| NativeHook.Hook.FinishPending | internal/vpcctl/native_hook.go:197-204 | A pending receipt of the wanted image is installed and becomes the active one; from a resumable state only a refused write stops it |
| NativeHook.Hook.ReversePending | internal/vpcctl/native_hook.go:205-212 | A pending upgrade over a receipt that knows the wanted image is rolled back to its predecessor; from its exact states only a refused write stops it |
| NativeHook.Hook.RollBack | internal/vpcctl/native_hook.go:217-231 | The rollback loop ends, and ends at the nearest receipt recording the image |
| NativeHook.Hook.StepBack | internal/vpcctl/native_hook.go:220-230 | One step back leaves the predecessor active and installed |
| NativeHook.Hook.FirstPlan | internal/vpcctl/native.go:499-547 | A first plan is made exactly from an unextended schema and a provable original image; it records the state it starts from and the immutable image of the controller found as the one to return to, and can be installed |
| NativeHook.Hook.UpgradePlan | internal/vpcctl/native_lifecycle.go:151-198 | An upgrade is planned exactly from the installed state of the active receipt, for another image on the same baseline with room in the chain |
| NativeHook.Hook.InstallNew | internal/vpcctl/native_hook.go:250-260 | The new receipt is persisted before anything else is written; success leaves it active and installed |
| NativeHook.Hook.Reconcile | internal/vpcctl/native_hook.go:186-262 | Success means exactly this bundle is active and installed; first installations, upgrades and rollbacks to a recorded image succeed when no write is refused; wherever the run stops the receipt pins the cluster, and the same action can be resumed there and then finishes when no write is refused |
| NativeHook.Hook.Repeat | internal/vpcctl/native_hook.go:142-262 | Bringing the same bundle in again after any number of stopped runs ends with exactly this bundle active and installed, as soon as one run has no write refused |
| NativeHook.Hook.Uninstall | internal/vpcctl/native_hook.go:147-179 | Success means no receipt, the root's schema, and the root's template with its recorded digest; when no write is refused it succeeds exactly unless the original image is unknown or a pending upgrade is not in force; a stopped run keeps the receipt and can be repeated |
| NativeHook.Hook.RunAll | internal/vpcctl/native_hook.go:142-262 | Over any sequence of runs that stop anywhere, the receipt pins the cluster and no patched image runs without its schema |
| NativeHook.Hook.Verify | internal/vpcctl/native_lifecycle.go:200-249 | True exactly when schema and template are the receipt's expected state |
| NativeHook.InstallKeeps | internal/vpcctl/native.go:683-739 | Every state an installation can stop in is pinned by its pending receipt |
| NativeHook.RollbackKeeps | internal/vpcctl/native_lifecycle.go:491-541 | Every state a rollback can stop in is pinned by its pending receipt |
| NativeHook.UninstallKeeps | internal/vpcctl/native_lifecycle.go:491-541 | Every state an uninstall can stop in is pinned by the receipt it restores |
| GatewayRegistry.DecodeRegistry | internal/managedgateway/registry.go:41-67 | Accepts exactly registries with legal pools, injective usable addresses and ports that are in range, unique per node and never orphaned |
| GatewayRegistry.CheckAddresses | internal/managedgateway/registry.go:51-57 | Passes exactly when every address is a usable host held by one claim |
| GatewayRegistry.CheckPorts | internal/managedgateway/registry.go:58-65 | Passes exactly when every port is legal, has its address and is unique on its node |
| GatewayRegistry.ScanAddresses | internal/managedgateway/registry.go:276-283 | Finds the first free address strictly inside the pool, or none exactly when all are used |
| GatewayRegistry.ScanPorts | internal/managedgateway/registry.go:260-266 | Finds the first free port of the range, or none exactly when all are used |
| GatewayRegistry.Allocate | internal/managedgateway/registry.go:234-290 | A retained claim is returned unchanged; a new one gets the first free value; exhausted exactly when the pool is full |
| GatewayRegistry.AllocationExtends | internal/managedgateway/registry.go:245-281 | No existing claim ever changes, and the requested one is there afterwards |
| GatewayRegistry.AddressDecodable | internal/managedgateway/registry.go:272-283 | A new address can be read back exactly when the first free one is not link-local |
| GatewayRegistry.PortDecodable | internal/managedgateway/registry.go:254-266 | A new port can always be read back |
| GatewayRegistry.PoolsThatStayReadable | internal/managedgateway/registry.go:234-290 | Every allocation keeps every registry readable exactly for the pools that avoid 169.254.0.0/16 |
| GatewayRegistry.LegalPoolWithLinkLocal | internal/siteconfig/config.go:195-204 | 169.252.0.0/14 is a legal pool that contains that range |
| GatewayRegistry.SafeAllocation | internal/managedgateway/registry.go:234-290 | For such pools each allocation keeps the registry readable |
| GatewayRegistry.RegistryStaysSound | internal/managedgateway/registry.go:238-290 | Over every interleaving of retrying allocators the registry stays readable, no claim changes or is dropped, and what was returned stays recorded |
| RegistryMeaning.DecodableMeans | internal/managedgateway/registry.go:41-67 | In plain terms: the readable registries, exactly: pools, addresses strictly inside the pool held once, ports of a node with an address held once |
| RegistryMeaning.AddressesMean | internal/managedgateway/registry.go:268-290 | In plain terms: a claim keeps its address, a new one gets the lowest address strictly inside the pool that no claim holds, and it is refused exactly when all are held |
| RegistryMeaning.PortsMean | internal/managedgateway/registry.go:245-266 | In plain terms: a port is handed out only beside an address, the lowest no claim of the node holds, and refused exactly when all are held |
| SiteLedger.ReadState | internal/localcontroller/allocation.go:70-89 | Accepts exactly ledgers whose owners hold good allocations for bindings of their own and share nothing |
| SiteLedger.TransitBlocksDisjoint | internal/localcontroller/allocation.go:79-87 | Different owners' transit blocks are aligned blocks of the pool that share no address |
| SiteLedger.BlockAt | internal/localcontroller/allocation.go:206-207 | The i-th block is a canonical block inside the pool |
| SiteLedger.ScanBlocks | internal/localcontroller/allocation.go:206-212 | Finds the first free block of the pool, or none exactly when all are used |
| SiteLedger.Allocate | internal/localcontroller/allocation.go:190-224 | A retained allocation is returned unchanged; a new one is the first free pair; each refusal has its exact cause |
| SiteLedger.ChosenReadable | internal/localcontroller/allocation.go:206-219 | The chosen pair is a legal allocation exactly when neither part is link-local |
| SiteLedger.AllocationReadable | internal/localcontroller/allocation.go:200-224 | A new allocation leaves the ledger readable exactly when what it chose is not link-local |
| LedgerPools.LedgersThatStayReadable | internal/localcontroller/allocation.go:190-224 | Every allocation keeps every readable ledger readable exactly when each pool avoids 169.254.0.0/16 or the other pool runs out before its own values below that range do; for all other pools owners arriving one after the other fill a readable ledger from which the next allocation cannot be read back |
| LedgerPools.SafeAllocation | internal/localcontroller/allocation.go:190-224 | For such pools each allocation keeps the ledger readable and all others unchanged, with the asker recorded |
| LedgerPools.SafeAndUnsafe | internal/localcontroller/allocation.go:206-224 | 169.252.0.0/14 in /29 blocks is safe beside a /30 source pool and not beside a /8 |
| LedgerRuns.LedgerStaysSound | internal/localcontroller/allocation.go:121-240 | Over every run with bindings coming and going and calls that read listing, identity and ledger one request at a time and stop anywhere, the ledger stays readable, and an allocation is returned only once ledger and receipt both hold it |
| LedgerRuns.AllocationIsForEver | internal/localcontroller/allocation.go:121-240 | A source keeps its one allocation in every continuation of the run, even when its binding is gone or replaced |
| LedgerRuns.OneAllocationPerSource | internal/localcontroller/allocation.go:121-240 | Whatever two calls returned, they returned the same allocation exactly when they asked for the same source |
| LedgerRuns.CheckKeeps | internal/localcontroller/allocation.go:164-189 | The receipt check of one call keeps every invariant of the store and of all other calls |
| LedgerRuns.ReserveKeeps | internal/localcontroller/allocation.go:190-228 | A compare-and-swap on the ledger records one reservation or changes nothing, and keeps every invariant |
| LedgerMeaning.ReadableMeans | internal/localcontroller/allocation.go:70-89 | In plain terms: the readable ledgers, exactly |
| LedgerMeaning.AllocatesMeans | internal/localcontroller/allocation.go:190-224 | In plain terms: a source gets its own allocation back for its own binding only, a new one gets the first free block, the router's address in it and the first free source address, and is refused exactly when a pool is used up |
| LedgerMeaning.CheckMeans | internal/localcontroller/allocation.go:164-189 | A call goes on exactly for a readable ledger all receipts match, under the identity read or a first one |
| LedgerMeaning.ReservationMeans | internal/localcontroller/allocation.go:190-228 | A reservation is a compare-and-swap on the ledger's version |
| TopologyLock.DomainGate.Acquire | internal/controller/domain.go:52-81 | Held exactly when the lock was free or already held under the same plan; nothing else changes |
| TopologyLock.DomainGate.CheckTargets | internal/controller/domain.go:118-125 | Every registered target is checked before any is changed |
| TopologyLock.DomainGate.SetPaused | internal/controller/domain.go:107-180 | Refused without the lock or with a foreign target, changing nothing; a request that fails on the way leaves every target as it was or scaled; otherwise scales every target, and reports success exactly when all were observed in the wanted state |
| TopologyLock.DomainGate.ScaleOne | internal/controller/domain.go:126-177 | One target is scaled, or left alone when a request fails, and is reported there exactly when it was observed in the wanted state before |
| TopologyLock.DomainGate.Release | internal/controller/domain.go:181-194 | Only the holder releases the lock |
| TopologyLock.RunSound | internal/controller/reconciler.go:224-279 | Over all runs of any number of VPCs with crashes, a paused deployment means the lock is held, and each phase's knowledge stays true |
| TopologyLock.RowsChangeOnlyWhenQuiet | internal/ovn/exec.go:499-534 | With `TopologyLock.OnlyOwnRowsGo`: a transit row appears or disappears only while its own VPC holds the lock and every registered deployment is observed stopped, and no other row changes |
| TopologyLock.OnlyOwnRowsGo | internal/ovn/exec.go:525-534 | Over every run a row is never changed, and removed only by the VPC that owns it, as the row its status records |
| TopologyLock.OnlyOwnRowsRecorded | internal/ovn/exec.go:483-524 | Only a row a VPC owns is ever recorded as its transit: the one under its name, or a new one when there is none |
| TopologyLock.QuietRemoval | internal/ovn/exec.go:525-534 | A quiet removal takes the VPC's own row away exactly when it is the recorded one, and gives way to any other |
| TopologyLock.QuietCreation | internal/ovn/exec.go:499-524 | A quiet creation recognises the VPC's own row, makes one only when there is none and none is recorded, and forgets a recorded row that is gone |
| TopologyMeaning.PauseMeans | internal/controller/domain.go:107-180 | One deployment after another is asked to stop, by the holder only, and the VPC is quiet exactly when every one was found stopped |
| TopologyMeaning.ResumeMeans | internal/controller/reconciler.go:337-363 | A recorded operation is resumed by its VPC exactly when no other one holds the lock |
| TopologyLock.FreeMeansUp | internal/controller/reconciler.go:337-363 | A free lock means every deployment is asked to run |
| Rollout.RolloutPass | internal/managedgateway/reconciler.go:217-299 | The pass over the members: creations, at most one retirement, and the exact reason it ended |
| Rollout.PassMeans | internal/managedgateway/reconciler.go:217-299 | In plain terms: at the first old Pod the pass stops for want of any sibling that is up, of all of them, or of their health, and otherwise takes that one out; missing Pods before it are made anew |
| Rollout.SiblingServes | internal/managedgateway/reconciler.go:242-259 | Whether some, and whether all, siblings were read serving |
| Rollout.ProbeSiblings | internal/managedgateway/reconciler.go:264-278 | Whether every sibling was probed healthy |
| Rollout.OneDownByChoice | internal/managedgateway/reconciler.go:242-285 | A pass takes at most one member out, and only when every other one was read serving and probed healthy |
| Rollout.AtMostOneDown | internal/managedgateway/reconciler.go:190-299 | From a fleet with at most one member down no run takes a second one down |
| Rollout.ChangesAreBounded | internal/managedgateway/reconciler.go:217-285 | Every change brings the fleet closer to its desired configuration, so a run makes no more changes than the distance it starts with |
| Rollout.NeverStuck | internal/managedgateway/reconciler.go:217-285 | A recoverable fleet that is not done always has an event that advances it |
| Rollout.RolloutCompletes | internal/managedgateway/reconciler.go:217-285 | A rollout can complete exactly when no Pod is missing or terminating behind a stale one, in particular whenever all Pods are present |
| Rollout.NextRecoverable | internal/managedgateway/reconciler.go:226-259 | No event changes whether a fleet can complete |
| Rollout.NothingRemains | internal/managedgateway/reconciler.go:286-289 | Distance zero means every member serves its desired configuration |
| RuntimeContract.Render | internal/managedgateway/render.go:24-142 | Completes exactly when subnets, peers, links, remotes and profile permit, and then gives one link per exporting peer |
| RuntimeMeaning.CompleteMeans | internal/managedgateway/render.go:24-142 | In plain terms: when there is a complete rendering, exactly, in the fields of binding, attachment, gateway and peers |
| RuntimeMeaning.RenderedMeans | internal/managedgateway/render.go:24-142 | In plain terms: what is rendered: one link per peer whose location exports something, in the order of the peers' names, and the settings of binding, attachment and gateway |
| RuntimeMeaning.TunnelMeans | internal/managedgateway/render.go:78-104 | In plain terms: a rendered link listens where the gateway's own half says, dials the peer's endpoint at the port of the peer's half, and carries exactly the prefixes placed at the peer's location |
| RuntimeContract.RenderPeer | internal/managedgateway/render.go:56-104 | A peer is rendered exactly when both halves of its link agree; it is then the link `RuntimeMeaning.TunnelMeans` describes |
| RuntimeContract.RenderLinks | internal/managedgateway/render.go:56-104 | The loop over the sorted peers chooses exactly those whose locations export something |
| RuntimeContract.CheckRemotes | internal/managedgateway/render.go:105-119 | Passes exactly when every remote subnet is canonical, reached by a link and clear of the local ones |
| RuntimeContract.LookUpLink | internal/managedgateway/render.go:16-23 | The first link of a peer |
| RuntimeContract.ActiveSubnets | internal/managedgateway/render.go:25-35 | The prefixes of subnets not being deleted |
| RuntimeContract.CollectExports | internal/managedgateway/render.go:62-67 | The prefixes exported by one location |
| RuntimeContract.Validate | gateway/managed.py:22-80 | The runtime accepts exactly the configurations with disjoint ranges, links, control and health addresses |
| RuntimeMeaning.AcceptsMeans | gateway/managed.py:22-80 | In plain terms: the configurations the runtime accepts, exactly |
| RuntimeContract.CheckLinks | gateway/managed.py:45-71 | The growing sets refuse exactly links that collide with each other or with local ranges |
| RuntimeContract.CheckLink | gateway/managed.py:48-71 | One link against the sets accumulated before it |
| RuntimeContract.CheckPrefixes | gateway/managed.py:38-40 | Passes exactly when the local prefixes are pairwise disjoint |
| RuntimeContract.CheckHealth | gateway/managed.py:74-79 | Passes exactly when all health addresses are present, distinct and clear of tenant and control addresses |
| RuntimeContract.RenderedIsAccepted | gateway/managed.py:22-80 | For all three transports, on inputs that passed the controller's checks, with disjoint pools and claims, whatever the controller renders the runtime accepts |
| RuntimeContract.LinksStayApart | internal/managedgateway/render.go:56-104 | Two rendered links share no identity and no control address, and delegate overlapping prefixes for one location only |
| RuntimeContract.HealthAccepted | internal/managedgateway/render.go:127-137 | The health addresses rendered for EVPN pass the runtime's checks |
| RuntimeContract.ControlsAvoidDelegated | gateway/managed.py:72-73 | No rendered control address lies in a delegated prefix |
| SiteController.LocalReconciler.SetPhase | internal/localcontroller/reconciler.go:53-71 | A phase is written only when it differs, and nothing else of the world changes |
| SiteController.LocalReconciler.WriteRecords | internal/localcontroller/reconciler.go:335-345 | Owned objects are recorded by their identity, and the pass ends |
| SiteController.LocalReconciler.CreateNative | internal/localcontroller/reconciler.go:356-367 | An absent, unrecorded object is created under this binding's label, and recorded when the pass gets that far |
| SiteController.LocalReconciler.CorrectNative | internal/localcontroller/reconciler.go:370-391 | Only the wanted fields of an owned object are changed |
| SiteController.LocalReconciler.EnsureActive | internal/localcontroller/reconciler.go:180-197 | Goes on exactly when every active subnet exists as wanted and is ready |
| SiteController.LocalReconciler.WithdrawRoutes | internal/localcontroller/reconciler.go:639-660 | Goes on exactly when no route of the binding is left or awaited |
| SiteController.LocalReconciler.WithdrawBackend | internal/localcontroller/reconciler.go:601-616 | Goes on exactly when the gateways are gone, and is only reached once the routes over them are |
| SiteController.LocalReconciler.DeleteDraining | internal/localcontroller/reconciler.go:257-268 | Goes on exactly when every draining subnet is gone and forgotten |
| SiteController.LocalReconciler.CheckRecordedUnused | internal/localcontroller/reconciler.go:572-578 | Passes exactly when no recorded workload subnet is in use |
| DestinationDiff.AddIntentRows | integration/kube-ovn/overlay/pkg/ovs/ovn-nb-destination-route.go:149-159 | An intent adds its guard and all rows of both children to the table, and nothing that is not desired |
| DestinationDiff.AddChildRows | integration/kube-ovn/overlay/pkg/ovs/ovn-nb-destination-route.go:154-158 | A child adds one row per hop |
| RuntimeContract.CheckDelegated | gateway/managed.py:63-71 | Passes exactly when every delegated prefix is clear of local ranges and of other owners' prefixes |
| RuntimeContract.ClearOf | gateway/managed.py:78-79 | A health address passes exactly when it is clear of transit, tenants, controls and delegated prefixes |
| RuntimeContract.StepPeer | internal/managedgateway/render.go:56-70 | A peer fits exactly when it is new, remote, authorized and, if it exports, reciprocal |
| RuntimeContract.AddPeer | internal/managedgateway/render.go:56-104 | One turn of the loop over the peers keeps what was built and adds at most one link |
| NativeHook.Hook.HasImageBelow | internal/vpcctl/native_hook.go:219 | The loop goes on exactly when an earlier receipt records the wanted image and the active one does not |
| NativeHook.Hook.InstallTarget | internal/vpcctl/native_hook.go:238-261 | A bundle not yet recorded is planned, persisted and installed, from the stock controller or the active receipt |
| Ordering.SortedNames | internal/platformplan/plan.go:98-102 | The names of a set, each once, in order |

## Left out

- Authority.ReleasedOnlyWhenWithdrawn: holds for runs that release claims only at harmless histories, because a revision carries no generation; `Links.ConfinesExactlyHarmless` shows that this is exactly what the acknowledgement test needs, per location, and `Recurrence.RecurrenceReleasesEarly` what happens without it.
- Authority.ConfiguredNeverOverlaps: holds in runs whose earlier releases were of that kind.
- Authority.RetiredIsClean: a stale listing that recreates a retired incarnation is shown by `Syncer.StaleListingRecreates` and not composed with the authority's runs.
- Authority.RunSound: one reconcile of a VPC at a time, each step reading the current authority state with delayed location statuses; a binding may be retired without looking at its phase, and detaching locations and pools may be read as anything, both of which permit more runs than the code does; network identifiers and link allocations are not part of the snapshots.
- Recurrence.RecurrenceReleasesEarly: what the locations do inside a pass is one step each, so that the location controller gets as far as configuring the prefix, and no further, is a step of the run.
- SiteController.AcknowledgedIsExact: a snapshot a location cannot rely on is not accepted in its runs; `Discipline.SnapshotsSucceed` shows that the authority issues none as long as admitted subnets stay admissible, and `PoolChange.PoolWithdrawn` that it does otherwise; no one else is to create native subnets under the binding's label; field values of native objects are texts, and their node selector is not modelled.
- SiteController.LocalReconciler.Reconcile: the condition texts; the location and the source annotation of the binding, the allocation call inside the pass and the effects of the gateway backend are inputs of the pass.
- Snapshot.Build: object names, namespaces, labels, and the network identifiers, system numbers and link allocations added to the snapshots afterwards.
- Snapshot.PlanIsCanonical: needs location names without a slash and one binding per location, as configuration and binding names provide.
- NetworkIds.NeverReused: a shard that grows beyond 900000 bytes stops a call like any refused write; an empty key, which no caller passes, ends in a damaged registry and is not requested.
- NetworkIds.RunCalm: a missing anchor can still be reported by an unlucky interleaving; `NetworkIds.SequenceReadCalm` gives the exact condition.
- DestinationReconcile.NorthboundClient.ReconcileDestinationRoutes: port networks, new references to a retired session, and rows not touched by the change are not guarded by the transaction, so nothing is promised about their concurrent edits.
- DestinationReconcile.DestinationsForwarded: forwarding is longest-prefix match over main-table destination routes; connected routes, policies and source routing are not part of this model.
- NativeHook.Hook.RunAll: nothing else, and so no other hook run, writes the three objects; a write refused because another actor moved a resource version is a run that stops.
- NativeHook.Hook.Uninstall: the finalizers of the receipt secret, and the drain of routes and sessions before the stock image returns.
- NativeHook.Hook.Verify: rollout readiness, acknowledgements of routes, dry runs and recorded patches.
- NativePlan.ChainKeepsRest: containers are a map by name, and everything else of schema and template is one opaque value.
- GatewayRegistry.Allocate: cluster identity, digest and the immutable identity object of the registry, and the bootstrap evidence of existing bindings.
- LedgerRuns.LedgerStaysSound: ledger and identity objects are never deleted, as the code relies on; the digest over the ledger's text and the cluster identity inside it.
- RuntimeContract.Render: a refusal and an incomplete rendering are not told apart; names, siblings, keys as text and the order of prefixes are not rendered.
- RuntimeContract.Validate: the pattern of identities, and Python's own parsing of addresses.
- RuntimeContract.RenderedIsAccepted: takes the disjointness of all locations' control, transit and workload ranges, and the other location's ledger, as what the controllers' checks and the installation guarantee.
- TopologyLock.RunSound: attachments, marks, gateways and local resources between the lock operations; labels of the lock object.
- Rollout.AtMostOneDown: a Pod that fails by itself, and a desired configuration that changes during a rollout.
- Rollout.RolloutPass: Pod verification, configuration and secret objects, and pruning.
- HTTP, exec, netlink, nftables, FRR, Helm and command-line code; JSON, YAML and SHA-256 themselves.
- The older SiteVpc path (`internal/siteplan`, `internal/sitecontroller`), which repeats these ideas with smaller statements.
- Garbage collection of destination routes, which can stop with an error when one orphan owner spans two routers.
