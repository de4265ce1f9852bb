# A verified model of the ClickHouse operator

The operator turns a ClickHouseInstallation into a grid of hosts and rolls that grid out one host at a time.
These modules model the parts of it in which many steps have to agree, and prove what the steps keep together.

| file | what it models |
|---|---|
| `registry.dfy` | the registries of Kubernetes objects by which a run remembers what it has reconciled, and what failed |
| `wrappers.dfy` | a value that may be absent |
| `run_log.dfy` | a reconcile run as a log of events, and what is safe at every moment of the log |
| `reconcile.dfy` | the reconcile run itself, from the preliminary objects to the purge, against an API server whose every call may fail and a context that may be cancelled before any check |
| `layout.dfy` | folding shard-major and replica-major lists of hosts into one grid of shared host objects, and rebuilding the lists from it |
| `cycles.dfy` | placement cycles: the numbering of hosts, and what the anti-affinity of MaxNumberPerNode does to the pods of a node |
| `ports.dfy` | the ports of hosts |
| `settings.dfy`, `paths.dfy` | settings: paths, their normalisation, merging and inheritance |
| `fingerprints.dfy` | sections of configuration files, filtering, and the input of fingerprints |
| `remote_servers.dfy` | the printed `remote_servers` section and a strict reader of it |
| `listing.dfy` | the hosts that a run publishes against the text by which it publishes them |
| `chopsim.dfy` | the allocator by which overlapping clusters share StatefulSets |
| `sql_exec.dfy` | running SQL statements on the hosts of a cluster, with retries |
| `volumes.dfy`, `names.dfy` | volume mounts and claims of a StatefulSet, the names of objects, and whether a claim may be deleted |

Objects that the operator updates in place are classes here, and the loops that update them are methods. A method is
proved against a specification function or predicate, and lemmas say what follows. What cannot be seen or decided here
is a choice: the outcome of an API call, the moment of a cancellation, the order in which a Go map is walked and the
order in which concurrently normalised clusters arrive are arbitrary. In `reconcile.dfy` a method returns a value `Nil`
where the code returns a nil error, and the context stays done once it is done.

What the proofs found, where the code and what it promises part:

- `MaxNumberPerNode` bounds the pods of a node only for scopes that do not name the shard or the replica. The exact
  bound is the number of different label sets that the scope tells apart (`Cycles.BoundIsNumberOfClasses`,
  `Cycles.ShardScopeBreaksThePromise`).
- `ExecAll` says it runs its statements on all hosts. Its hosts share one slice whose slots are blanked on success, so
  each statement succeeds at most once in all; the promise can be kept exactly when there is at most one host, or
  nothing to run, and then every run that completes keeps it (`SqlExec.RunsEverywhereOnlyOnOneHost`,
  `SqlExec.Run.ExecAll`).
- Normalising a layout indexes out of range exactly when an explicit count does not cover the explicit lists and counts
  across it (`Layout.Cluster.Normalize`).
- `reconcilePVCs` dereferences a nil claim exactly when the context is done between the Get of a claim that is found and
  its update (pkg/controller/chi/worker.go:2321-2347). The model has it as the outcome `Crash`. It can happen exactly if
  the context is live at the start and the host has a claim (`Reconcile.Worker.ReconcilePVCs`,
  `Reconcile.WalkMayCrash`, `Reconcile.CrashAtSecondClaim`).
- A registry subtracted from itself keeps half of its entries, since they are deleted from the slice that is walked
  (`Registries.SelfSubtractionIsEmpty`). Nothing in the operator does so.
- `errIgnore` is an error like the others to the walk: `reconcileHost` returns it, and the walk stops.
- Ports spread by cluster scope index from the default bases all differ exactly up to nine hosts
  (`Ports.DefaultPortsDifferUpToNine`).
- Host files of the installation override those of a cluster, unless the cluster spells the path in an unusual way
  (`Fingerprints.FilesOfCluster`, `Fingerprints.LeadingSlashKeepsOwnFile`).
- Names of StatefulSets collide for clusters with the same first fifteen characters, and may collide for explicit host
  names, exactly when a dash can be read as the end of either cluster (`Names.LongClusterNamesCollide`,
  `Names.StatefulSetNamesCollide`, `Names.ExplicitHostNamesMayCollide`).

## Model

| member | source | states |
|---|---|---|
| RunLog.AddedOnlyAfterReady | pkg/controller/chi/worker.go:1092-1143 | in a safe run, a host that was flagged `add` is published only after its own StatefulSet was brought up in this run, for which the shutdown stage of a rolling update does not count, if the config before listed none of those hosts |
| RunLog.AtMostOneMissing | pkg/controller/chi/worker.go:1258-1299 | in a safe run whose publications succeed, a host that the last publication does not list, although it was not to be added or has joined since, is the host of the last Begin event |
| RunLog.LeavesBeforeTouched | pkg/controller/chi/worker.go:1202-1218 | in a safe run whose publications succeed and whose exclusion is waited for, no request changes the StatefulSet of a host that the last publication lists, if the update is rolling, or the host was found modified or in an unknown state at its last Begin event and is not alone in its shard |
| RunLog.BegunInWalkOrder | pkg/apis/clickhouse.radondb.com/v1/type_chi.go:405-447 | in a safe run the reconcile of hosts begins in walk order, with none twice and none left out |
| RunLog.NoneBeginsAfterFailure | pkg/controller/chi/worker.go:1092-1143 | in a safe run no host begins after one whose reconcile returned an error, errIgnore included |
| Reconcile.Worker.UpdateCHI | pkg/controller/chi/worker.go:250-344 | every moment of a run is safe; a run that ends nil and uncancelled has published and reconciled every host, each in its turn; it crashes only with a done context and a host with a claim; whatever failed or was cancelled, the purge spares all that is desired and every claim labelled Retain |
| Reconcile.NothingDesiredPurged | pkg/controller/chi/worker.go:526-594 | what the run achieved, with the purge rule, spares StatefulSets, ConfigMaps and Services of the installation, swallowed failures unless failed objects are to be deleted, and retained claims |
| Reconcile.Worker.Reconcile | pkg/controller/chi/worker.go:597-617 | nil with a live context means that every object is reconciled and remote_servers lists every host |
| Reconcile.Worker.ReconcileAuxPreliminary | pkg/controller/chi/worker.go:844-884 | nil leaves no host missing that is not flagged `add`; an error is that of the installation's Service, which is then registered as failed before anything is published |
| Reconcile.Worker.ReconcileAuxFinal | pkg/controller/chi/worker.go:887-898 | publishes every host, which is safe since all are reconciled by then |
| Reconcile.Worker.ReconcileConfigMapCommon | pkg/controller/chi/worker.go:925-947 | publishes the included hosts, or leaves the listing as it was; nil with a live context means published and registered |
| Reconcile.Worker.ReconcileCommon | pkg/controller/chi/worker.go:1863-1898 | updates a ConfigMap that is found, creates it exactly when it is absent or the update does not find it, and returns the error of the last call, with a nil return at each check of a done context |
| Reconcile.Worker.RemoteServers | pkg/model/ch_config_generator.go:230-246 | lists exactly the hosts that the options include |
| Reconcile.Worker.ReconcileHost | pkg/controller/chi/worker.go:1092-1143 | keeps the run safe; a nil return leaves no member missing and passes the turn to the next host, and with a live context the host is ready, joined and its objects registered; after an error it is nobody's turn |
| Reconcile.Worker.ReconcileHostConfig | pkg/controller/chi/worker.go:1107-1115 | after it the host's StatefulSet may be changed: it is out of remote_servers if it must be |
| Reconcile.Worker.FinishHost | pkg/controller/chi/worker.go:1120-1143 | claims asked for, Service registered, `add` cleared, the host published again |
| Reconcile.Worker.ExcludeHost | pkg/controller/chi/worker.go:1202-1218 | with policy Wait, or none and the operator's default to wait, a host that is rolling, or modified or unknown and not alone in its shard, is published out of the listing if nothing fails; with NoWait, or new, same or alone when not rolling, nothing is published; if anything is, it is all members but this host |
| Reconcile.Worker.IncludeHost | pkg/controller/chi/worker.go:1221-1235 | publishes all members, so that none is missing |
| Reconcile.Worker.ReconcileHostStatefulSet | pkg/controller/chi/worker.go:998-1019 | nil with a live context means ready and registered as reconciled; another error, registered as failed |
| Reconcile.Worker.ReconcileStatefulSet | pkg/controller/chi/worker.go:2118-2157 | nil with a live context means, by the log, one of: nothing was asked since it is the same; it was updated; it was deleted and created; it was created; with the final stage it then is ready, with the shutdown stage never; any error leaves the host as ready or not as it was |
| Reconcile.Worker.UpdateReadyStatefulSet | pkg/controller/chi/creator.go:85-125 | finished with a live context exactly if the update succeeded and, when it changed the generation, the wait for it did; an unchanged generation is not waited for |
| Reconcile.Worker.UpdateStatefulSet | pkg/controller/chi/worker.go:2205-2268 | with a live context nil means that a ready StatefulSet was updated and became ready, or that it was recreated after the failed update or because it was not ready |
| Reconcile.Worker.RecreateStatefulSet | pkg/controller/chi/worker.go:2271-2281 | with a live context nil means that it was deleted, its claims were asked for, and it was created and became ready, in this order |
| Reconcile.Worker.CreateStatefulSet | pkg/controller/chi/creator.go:60-82 | a failed create or wait is always an error; nil with a live context means created and ready |
| Reconcile.Worker.ReconcilePVCs | pkg/controller/chi/worker.go:2296-2342 | which claims are visited and what becomes of each: a crash exactly if the last one visited was found and not updated as the context was done by then, never if the context was done at the start or the host has no claim; every claim was asked for unless the context is done |
| Reconcile.WalkMayCrash | pkg/controller/chi/worker.go:2296-2342 | a walk over n claims can crash exactly if the context is live at its start and n is positive |
| Reconcile.WalkCrashesAtLastVisit | pkg/controller/chi/worker.go:2331-2334 | a walk crashes exactly if some claim was found and the context done before its update, which then is the last one |
| Reconcile.CrashAtSecondClaim | pkg/controller/chi/worker.go:2331-2334 | a failing walk: of three claims the first is updated and the second dereferenced |
| Reconcile.Worker.ReconcileClaim | pkg/controller/chi/worker.go:2305-2339 | a claim whose Get fails enters neither registry; one that is found crashes the run if the context is done by then, and else is registered exactly by the outcome of its update |
| Reconcile.Worker.RegisterOutcome | pkg/controller/chi/worker.go:925-947 | an object enters exactly the registry of its outcome |
| Reconcile.Worker.ReconcileAndRegister | pkg/controller/chi/worker.go:1042-1064 | with a live context the object is registered, as reconciled exactly if nil is returned |
| Reconcile.Worker.WalkHosts | pkg/apis/clickhouse.radondb.com/v1/type_chi.go:427-440 | the hosts of a shard are reconciled one after the other, from its first number on; nil with a live context means all of them |
| Reconcile.Worker.WalkShard | pkg/controller/chi/worker.go:1067-1089 | nil with a live context means that the Service and every host of the shard are done, and that it is the turn of the next shard |
| Reconcile.Worker.WalkClusters | pkg/apis/clickhouse.radondb.com/v1/type_chi.go:405-447 | nil with a live context means that every cluster, shard and host was reconciled |
| Reconcile.Worker.Clear | pkg/controller/chi/worker.go:369-387 | purges nothing once the context is done; else, of what is discovered and not reconciled, a StatefulSet, ConfigMap or Service goes exactly if its own policy says Delete, that for failed objects if it failed and that for unknown ones if not; so does a claim, unless some claim of its name has the label Retain; no claim with that label ever goes, nor any PV |
| Reconcile.PoliciesByType | pkg/controller/chi/worker.go:526-594 | the same rule from the purge decision of one object, for each type with its own two policies |
| Reconcile.Worker.Purge | pkg/controller/chi/worker.go:555-594 | purges exactly what the rule lets go, whatever order the registry is walked in |
| Reconcile.Worker.ShouldPurge | pkg/controller/chi/worker.go:526-553 | decides by the policy of failed objects or of unknown ones, and by the reclaim label of a claim |
| Reconcile.Worker.Discovery | pkg/controller/chi/discoverer.go:27-41 | nil once the context is done, else exactly the keys that the lists returned |
| Registries.Registry.Register | pkg/model/registry.go:86-102 | adds the entry unless its namespace and name are there; the first one wins and keys stay unique |
| Registries.Registry.Has | pkg/model/registry.go:180-199 | true exactly for the registered names of the type |
| Registries.Registry.Delete | pkg/model/registry.go:207-234 | removes the entry of that name and no other |
| Registries.SwapRemoveTakesOne | pkg/model/registry.go:207-234 | copying the last element over the found one and truncating loses that entry only, and keeps keys unique |
| Registries.Subtract | pkg/model/registry.go:237-252 | set difference per entity type, whatever order the map is walked in; of a registry minus itself the last half of each slice is left |
| Registries.SelfSubtractionIsEmpty | pkg/model/registry.go:207-252 | a registry minus itself is empty exactly if no type has more than one entry |
| Registries.DeleteSelfFromTheMiddle | pkg/model/registry.go:62-71 | the walk over a slice that deletes what it meets leaves the last half, since from the middle on it meets erased slots |
| Layout.Cluster.Normalize | pkg/model/normalizer.go:1024-1179 | panics exactly when a count does not cover the lists and counts across it; else an explicit count of the layout stays and a missing one is the least that covers the rows; each row keeps an explicit count, else has as many hosts as it lists, else as many as the layout has across; a shard's own host stays at its place, else the replica's does, all others are new, and both directions share one object per cell; a plain layout is a full grid |
| Layout.Cluster.NormalizeCounts | pkg/model/normalizer.go:1088-1155 | an explicit count is kept; a missing one is the least that is positive and covers the rows, and the counts and lists across |
| Layout.CreateHostsField | pkg/model/normalizer.go:1070-1085 | each cell holds the shard's host if there is one, else the replica's; doubly specified hosts are merged once, the shard's values first |
| Layout.RebuildShards | pkg/model/normalizer.go:1283-1293 | each shard lists the objects of its row of the field: as many as its explicit count, else as it lists, else as the layout has replicas; missing ones are created |
| Layout.RebuildReplicas | pkg/model/normalizer.go:1296-1306 | each replica lists the objects of its column, by the same rule |
| Layout.HostsField.GetOrCreate | pkg/apis/clickhouse.radondb.com/v1/type_hosts_field.go:45-55 | returns the host of the cell, a new one if it was empty, and touches no other cell |
| Layout.PicksAreDistinct | pkg/apis/clickhouse.radondb.com/v1/type_cluster.go:256-285 | distinct cells hold distinct host objects |
| Layout.CoversIsExact | pkg/model/normalizer.go:1088-1155 | all bounds that the layout steps need hold exactly when the input's counts cover its lists |
| Layout.MergePrefersDestination | pkg/apis/clickhouse.radondb.com/v1/type_host.go:86-105 | each port and each template name of the destination is kept if it has one and taken from the source if not; the data volume claim then falls back to the deprecated one |
| Layout.MergingTwice | pkg/apis/clickhouse.radondb.com/v1/type_host.go:86-105 | merging the same source again changes nothing, and merging a host into itself changes no port |
| Layout.GridIsInput | pkg/apis/clickhouse.radondb.com/v1/type_cluster.go:153-165 | the hosts of a normalised grid sit at the coordinates by which they are listed, in both directions |
| Layout.NormalizeAgain | pkg/model/normalizer.go:1283-1306 | normalising a normalised layout does not panic and leaves every list with the same objects and every count and port as it was |
| Cycles.FillAddresses | pkg/apis/clickhouse.radondb.com/v1/type_chi.go:48-366 | for given cycle sizes every host gets cycle index = index div size and offset = index mod size in the scopes of its installation and cluster |
| Cycles.ExpectedByField | pkg/apis/clickhouse.radondb.com/v1/type_chi.go:98-165 | the address by field: places, the index among all hosts before and among those of the cluster, and that divided into cycles |
| Cycles.FillSelfCalculatedAddressInfo | pkg/apis/clickhouse.radondb.com/v1/type_chi.go:48-165 | from the distributions and the clusters to the nodes: the size is unlimited for at most one pod per node and else the least that holds all hosts; each address tells place, indices and their division into cycles; and no node gets more pods of a cluster than asked for, for any scope that does not name shard or replica |
| Cycles.AddressesBoundNodes | pkg/model/affinity.go:366-378 | the same for the addresses alone; and the pods of a single cluster that asks for two or more per node need exactly as many nodes as a cycle is long |
| Cycles.AddressedPodsAreCycled | pkg/model/labeler.go:280-290 | the pods labelled from their addresses carry the cycle of their place in the walk |
| Cycles.MaxPerNode | pkg/apis/clickhouse.radondb.com/v1/type_chi.go:49-59 | the last distribution of type MaxNumberPerNode decides |
| Cycles.CycleSizeIsLeast | pkg/apis/clickhouse.radondb.com/v1/type_chi.go:80-96 | the cycle size is the least number of nodes of that capacity that holds all hosts |
| Cycles.MaxNumberPerNodeHolds | pkg/model/affinity.go:366-378 | for pods labelled with the cycle of their place, any placement that obeys the anti-affinity puts at most max(1, N) pods of a cluster on a node, for scopes that do not name shard or replica |
| Cycles.BoundIsNumberOfClasses | pkg/model/affinity.go:302-343 | for every scope, every obeying placement is bounded by a number exactly when there are no more label classes than it |
| Cycles.RepelWhen | pkg/model/affinity.go:302-343 | two pods of a cluster repel each other exactly if they are of one cycle and, when the scope names it, of one shard or replica |
| Cycles.ShardScopeBreaksThePromise | pkg/model/affinity.go:302-343 | with the shard scope two pods may share a node although one per node is asked for |
| Cycles.CoarseClassesAreCycles | pkg/model/affinity.go:366-378 | for the other scopes the label classes are the cycles |
| Cycles.CycleSizeNodesAreLeast | pkg/apis/clickhouse.radondb.com/v1/type_chi.go:80-96 | for pods labelled with the cycle of their place, as many nodes as the cycle size suffice for a cluster, and fewer do not |
| Cycles.PreviousCycleTailIsTail | pkg/model/namer.go:518-537 | the head of a later cycle points to the host at the last offset of the cycle before, every other host to itself, also when cycles are unlimited; always a host of the cluster |
| Chopsim.NormalizeCluster | dev/RnD/chopsim/parser/parser.go:565-630 | a standard layout becomes as many shards and replicas as it says, at least one, an advanced one its shards by count or by list; and each deployment is counted as often as replicas use it |
| Chopsim.MergeWith | dev/RnD/chopsim/parser/parser.go:676-683 | for every deployment of either the larger count, whatever order the map is walked in |
| Chopsim.NormalizeClusters | dev/RnD/chopsim/parser/parser.go:547-563 | for any order of arrival the references are the largest count of any cluster |
| Chopsim.GenRemoteServers | dev/RnD/chopsim/parser/parser.go:501-541 | the n-th replica of a deployment gets instance n, counted round from one to the maximum |
| Chopsim.InstancesGoRound | dev/RnD/chopsim/parser/parser.go:517-528 | the first instance of a deployment is one, the next is one more, and one again after the last |
| Chopsim.ReplicasOfAClusterAreApart | dev/RnD/chopsim/parser/parser.go:501-541 | two replicas of one cluster with one deployment get different instances, both between one and the maximum |
| Chopsim.EveryInstanceIsUsed | dev/RnD/chopsim/parser/parser.go:501-541 | the StatefulSet names used are exactly all instances of all deployments |
| Chopsim.WantedSize | dev/RnD/chopsim/parser/parser.go:501-541 | with distinct IDs there are as many as the sum of the maxima |
| Paths.NormalizeLaws | pkg/apis/clickhouse.radondb.com/v1/type_settings.go:590-597 | the result is normal; normal paths are left alone; comparing lengths finds exactly the changed paths; normalisation is idempotent |
| Paths.NormalizeIsJoin | pkg/apis/clickhouse.radondb.com/v1/type_settings.go:588-597 | normalisation keeps the names of a path and joins them with single slashes |
| Paths.SamePathIsSameNames | pkg/apis/clickhouse.radondb.com/v1/type_settings.go:588-597 | two paths normalise alike exactly when they list the same names |
| Paths.NamesOfJoined | pkg/apis/clickhouse.radondb.com/v1/type_settings.go:588-597 | names without slashes, joined by slashes, are read back |
| Paths.TwoNames | pkg/apis/clickhouse.radondb.com/v1/type_settings.go:588-597 | slashes before and after two names go, and one is left between |
| Settings.Settings.NormalizePaths | pkg/apis/clickhouse.radondb.com/v1/type_settings.go:560-586 | the keys become exactly the normalised images of the old keys, each with the value of an unusual spelling if there is one, else its own |
| Settings.NormalizingTwice | pkg/apis/clickhouse.radondb.com/v1/type_settings.go:555-586 | what normalisation leaves is normal, and normalising again changes nothing |
| Settings.MergeFrom | pkg/apis/clickhouse.radondb.com/v1/type_settings.go:398-412 | the receiver's keys win, in whatever order the source is walked; nil stays nil when there is nothing to merge |
| Settings.InheritedNext | pkg/model/normalizer.go:1182-1206 | merging over a normalised parent and normalising afterwards still lets the own level win for each path it spells in any way |
| Settings.InheritFrom | pkg/model/normalizer.go:1309-1332 | one level of inheritance, on objects |
| Settings.InheritSettings | pkg/model/normalizer.go:1024-1066 | each path of a host has the value of the nearest of host, shard or replica, and cluster that spells it |
| Settings.InheritedIsUnique | pkg/model/normalizer.go:1309-1332 | when no level spells a path twice, what is inherited does not depend on the order of map walks |
| Fingerprints.Filter | pkg/apis/clickhouse.radondb.com/v1/type_settings.go:486-526 | keeps exactly the selected paths, in whatever order they are walked |
| Fingerprints.Selects | pkg/apis/clickhouse.radondb.com/v1/type_settings.go:497-521 | the branches of the filter meet the selection rule: included and not excluded, or without a section if asked, never an unknown section |
| Fingerprints.InheritFilesFrom | pkg/apis/clickhouse.radondb.com/v1/type_cluster.go:107-124 | the installation's files of the HOST section override the cluster's |
| Fingerprints.InheritFiles | pkg/model/normalizer.go:1024-1066 | each file of a host comes from the nearest of host, shard or replica, and cluster that spells its path, where the host files of the installation have replaced the cluster's |
| Fingerprints.FilesOfCluster | pkg/model/normalizer.go:1031-1038 | after normalisation a path that the cluster spells in an unusual way keeps the cluster's value; any other has the installation's, if it is a host file of it |
| Fingerprints.LeadingSlashKeepsOwnFile | pkg/apis/clickhouse.radondb.com/v1/type_cluster.go:107-124 | a cluster that writes /HOST/a keeps its own file, one that writes HOST/a gets that of the installation |
| Fingerprints.AsSortedSliceOfStrings | pkg/apis/clickhouse.radondb.com/v1/type_settings.go:530-552 | the ascending keys, each followed by its rendered value |
| Fingerprints.AscendingIsUnique | pkg/apis/clickhouse.radondb.com/v1/type_settings.go:535-540 | a set of keys has one ascending list |
| Fingerprints.SliceIsCanonical | pkg/apis/clickhouse.radondb.com/v1/type_settings.go:530-552 | two maps give the same slice exactly when they have the same keys with the same rendered values |
| Fingerprints.FilesFingerprintInput | pkg/model/normalizer.go:776-793 | the sorted slice of exactly the COMMON, HOST and section-less files |
| Fingerprints.UsersFilesDoNotInterfere | pkg/model/normalizer.go:776-793 | two file maps give the same input exactly when they agree on COMMON, HOST and section-less files, whatever else they hold |
| Fingerprints.SectionsByName | pkg/apis/clickhouse.radondb.com/v1/type_settings.go:600-625 | COMMON and config.d, USERS and users.d, HOST and conf.d name the three sections; a path without a slash has none |
| Fingerprints.SectionsFold | pkg/apis/clickhouse.radondb.com/v1/type_settings.go:612-625 | names that differ only in case, or in a long s, are of one section |
| Fingerprints.FoldPairs | pkg/apis/clickhouse.radondb.com/v1/type_settings.go:612-625 | which characters are taken for one another |
| Fingerprints.UnknownNames | pkg/apis/clickhouse.radondb.com/v1/type_settings.go:612-625 | every other name is of no known section |
| Fingerprints.LessIsLexicographic | pkg/apis/clickhouse.radondb.com/v1/type_settings.go:535-540 | keys are ordered by the first letter in which they differ, the shorter first if there is none |
| Fingerprints.RenderedParts | pkg/apis/clickhouse.radondb.com/v1/type_settings.go:114-125 | a scalar is rendered as it is, a list with commas between its parts |
| RemoteServers.GetRemoteServers | pkg/model/ch_config_generator.go:289-514 | reading the text back gives the user clusters, then the generated ones; without options every host is listed in walk order by the user clusters together and by each generated one, and an installation without empty shards is printed whole; with options exactly the hosts that these do not name and share no set attribute with; the four generated clusters by name and shape |
| RemoteServers.WhoIsListed | pkg/model/ch_config_generator.go:230-246 | who is listed, by cases on the options |
| RemoteServers.GeneratedFromUser | pkg/model/ch_config_generator.go:362-508 | all-sharded has a shard for each replica, the consistency clusters have the shards of the user clusters with and without their replication setting, all-replicated has one shard with all |
| RemoteServers.ReadableIsBalanced | pkg/model/ch_config_generator.go:289-514 | the tags of any text that reads back are balanced |
| RemoteServers.EveryClusterListsTheIncluded | pkg/model/ch_config_generator.go:308-508 | the user clusters together and each generated cluster list the same included hosts in the same order; nothing printed is empty; nothing is generated for no host |
| Listing.TextListsThePublished | pkg/model/ch_config_generator.go:230-246 | the text generated for a publication of the reconcile run lists exactly the hosts that the run publishes, in walk order, in the user clusters together and in each generated one |
| Listing.FinalTextListsAll | pkg/controller/chi/worker.go:887-898 | the text of the last publication, generated without options, lists every host, which are those that the run publishes by it |
| RemoteServers.ChiHostsNum | pkg/model/ch_config_generator.go:254-263 | counts the included hosts of the installation |
| RemoteServers.ClusterHostsNum | pkg/model/ch_config_generator.go:266-274 | counts the included hosts of a cluster |
| RemoteServers.ShardHostsNum | pkg/model/ch_config_generator.go:277-286 | counts the included hosts of a shard |
| RemoteServers.TotalIsSum | pkg/model/ch_config_generator.go:254-274 | the hosts of the installation are as many as those of its clusters together |
| RemoteServers.Buffer.WriteShard | pkg/model/ch_config_generator.go:320-352 | a shard with an included host is read back with its replication, its weight if positive, and its included hosts; another is not printed |
| SqlExec.Run.ExecAll | pkg/model/clickhouse/cluster.go:102-128 | keeps the log proper; nil, uncancelled and with some connection means that every slot is blank, unless an error was a cancellation; once every slot is blank, every statement has run on every host exactly if there is at most one host, or no statement; a statement left undone was tried on every host with a connection; a returned error is one that a statement met, and never a cancellation |
| SqlExec.Run.ExecOn | pkg/model/clickhouse/cluster.go:133-181 | nil with a connection and a live context means all slots blank, unless an error was a cancellation; an error is that of the first slot left; what is left was tried on this host; nothing is sent when all are blank |
| SqlExec.Run.Retry | pkg/util/retry/retry.go:26-60 | at most `tries` calls; without cancellation and for at least one try, the waits asked for are those of that many calls, nil is returned exactly when nothing is left to run, and an error is that of the first slot left |
| SqlExec.Run.Pass | pkg/model/clickhouse/cluster.go:146-174 | nil with a live context exactly when all slots end blank; what is left was tried on this host; the error is that of the first slot that stays |
| SqlExec.Run.ExecSlot | pkg/model/clickhouse/cluster.go:156-167 | sends the statement, attaches instead exactly when creating a table failed because it is known, and blanks the slot on success only |
| SqlExec.AttachedReplaces | pkg/model/clickhouse/cluster.go:157-160 | the first CREATE TABLE becomes ATTACH TABLE, what comes before stays, and what follows is treated likewise |
| SqlExec.AttachedKeepsOthers | pkg/model/clickhouse/cluster.go:157-160 | a statement without CREATE TABLE is as before |
| SqlExec.ContainsIsSlice | pkg/model/clickhouse/cluster.go:157-160 | a statement contains what is a slice of it |
| SqlExec.SucceedsAtMostOnce | pkg/model/clickhouse/cluster.go:111-167 | no statement succeeds twice, on one host or on two |
| SqlExec.RunsEverywhereOnlyOnOneHost | pkg/model/clickhouse/cluster.go:99-122 | some proper log runs every statement on every host exactly when there is at most one host, or no statement |
| SqlExec.CompleteLogOnHosts | pkg/model/clickhouse/cluster.go:99-122 | every proper log in which each statement has succeeded runs them all on every host exactly in that case |
| SqlExec.WaitsOf | pkg/util/retry/retry.go:46-50 | k calls ask to wait 5 k (k - 1) / 2 seconds |
| Ports.Host.ApplyTemplate | pkg/model/normalizer.go:222-276 | a port that is set stays; another is what the first distribution offers: the template's port, or this or the default shifted by the index; if nothing is distributed it is that of the host's settings, else of the common ones, else 9000, 8123 and 9009; and it is set |
| Ports.PortIsSet | pkg/model/normalizer.go:270-309 | every port ends up non-zero, even if an offer wraps around |
| Ports.DistributedByCase | pkg/model/normalizer.go:222-266 | what is set stays, and else the first distribution decides, for the list of sources |
| Ports.SettingsByCase | pkg/model/normalizer.go:270-309 | without distribution the host's settings decide before the common ones, and these before the default |
| Ports.NormalPortsByCase | pkg/model/normalizer.go:1356-1373 | ports from 1 to 65534 are kept, others are assigned later |
| Ports.Int32Wraps | pkg/model/normalizer.go:244-259 | additions wrap around in 32 bits |
| Ports.PortsDifferWhenFarApart | pkg/model/normalizer.go:239-263 | all ports of n spread hosts differ exactly when the three bases are at least n apart |
| Ports.DefaultPortsDifferUpToNine | pkg/model/normalizer.go:188-219 | with the default bases that is up to nine hosts |
| Ports.PortsOfAKindDiffer | pkg/model/normalizer.go:239-263 | within one kind spread ports differ for different hosts |
| Ports.AssignPorts | pkg/model/normalizer.go:141-149 | the walk gives each host of a cluster its port of each kind, by its own index, and every port is set |
| Ports.AddressedPortsDiffer | pkg/model/normalizer.go:239-263 | with the indices of the addresses written before, all ports of the hosts of a cluster differ exactly when the three bases are as far apart as it has hosts |
| Names.StatefulSetNameDetermines | pkg/model/namer.go:746-764 | generated names are the same exactly for the same place in clusters whose parts are the same |
| Names.StatefulSetNamesCollide | pkg/model/namer.go:746-764 | for any names, explicit or generated, two StatefulSets share a name exactly when both parts agree, or the longer cluster part is the other, a dash and some x, and the other's host part is x, a dash and the one host part |
| Names.StatefulSetsAreDistinct | pkg/model/namer.go:746-764 | clusters with sanitised names of at most fifteen characters never share a StatefulSet name |
| Names.LongClusterNamesCollide | pkg/model/namer.go:219-227 | cluster names count up to their fifteenth character |
| Names.ExplicitHostNamesMayCollide | pkg/model/namer.go:692-694 | a witness: host b-0-0 of cluster a and the generated host 0-0 of cluster a-b |
| Names.ItoaIsInjective | pkg/model/namer.go:669-684 | generated shard and replica names differ for different indices |
| Names.ItoaReadsBack | pkg/model/namer.go:669-684 | reading the digits of an index back gives it |
| Names.SanitizeTrims | pkg/model/namer.go:164-166 | what is cut off consists of dashes, underscores and dots, and what is left neither starts nor ends with one |
| Names.NamesByPattern | pkg/model/namer.go:746-764 | the names of StatefulSet, pod and claim for parts that are short and clean |
| Names.LongPartsAreCut | pkg/model/namer.go:30-34 | longer parts are cut to 60 and 15 characters first |
| Names.PVCNameDetermines | pkg/model/namer.go:977-992 | the claims of the pod of a StatefulSet are told apart by their templates |
| Volumes.StatefulSet.SetUp | pkg/model/creator.go:707-741 | claim templates are pairwise distinct and exactly the known ones that some container mounts; the first container of each name mounts data on /var/lib/clickhouse and then log on /var/log/clickhouse-server exactly if known and neither name nor path is taken, and nothing else is added or lost |
| Volumes.StatefulSet.ApplyVolumeMount | pkg/model/creator.go:998-1093 | a mount is added exactly when its name and path are given, its template is known and neither name nor path is taken, and then its template is listed |
| Volumes.StatefulSet.AppendPVCTemplate | pkg/model/creator.go:1096-1141 | a template is listed once |
| Volumes.AddedMountsDoNotClash | pkg/model/creator.go:1037-1072 | no added mount reuses a name or a path of its container |
| Volumes.OfferedBothTwice | pkg/model/creator.go:727-735 | offering data and log again changes nothing |
| Volumes.HostCanDeletePVC | pkg/model/deleter.go:24-47 | a claim must be kept exactly when a mounted template of policy Retain makes a claim of its name |
| Volumes.OwnPolicyDecides | pkg/model/deleter.go:24-47 | for the claim of a mounted template, the policy of that template decides |

## Left out

- Reconcile.Worker.Reconcile: the ZooKeeper objects are one call that may fail; they are outside what discovery selects.
- Reconcile.Worker.UpdateCHI: the plan, resource versions, finalizers, deletion of an installation, dropping of replicas, status updates and the flagging of added hosts are not modelled; the flags are given.
- Reconcile.Worker.ExcludeHost: the waits for a host to leave or join, and the labels of its Service, are not modelled.
- Reconcile.Worker.ReconcileHost: the migration of tables to a new host and the deletion of a failed host are not modelled beyond the requests on its StatefulSet.
- Reconcile.Worker.UpdateStatefulSet: which error a failed run of it returns is not stated.
- Reconcile.Worker.Clear: of several discovered objects of one name the registry keeps one, so a claim is said to be purged when all of its name are given up.
- Listing.TextListsThePublished: the hosts of the text are given as those of the run, at the same places and with the same `add`.
- Reconcile.Worker.ReconcilePVCs: a claim whose Get fails is in neither registry, so no general protection of claims is claimed; only retained, updated and failed claims are.
- Registries.Subtract: the result of subtracting a registry from itself is stated for entries with names, as all Kubernetes objects have.
- Layout.Cluster.Normalize: needs each explicit host object to be given once, as decoding the specification gives it.
- Cycles.CycleSizeIsLeast: the ceiling is taken over reals, so the rounding of float64 for enormous counts is not captured.
- Cycles.MaxNumberPerNodeHolds: an explicit distribution is assumed to be in force with its topology key and the scope labels on the pods; the entries that CircularReplication expands to are not modelled.
- Chopsim.GenRemoteServers: counts are natural numbers, random IDs are given as a map, and the text around the names is left out.
- Chopsim.WantedSize: random IDs are assumed to be distinct.
- RemoteServers.GetRemoteServers: lines are tokens, so indentation and the escaping of names are left out; a host is listed by a given name.
- SqlExec.Run.ExecOn: whether the pool has a connection is given; deadlines are not modelled.
- SqlExec.Run.Retry: only the function that Cluster.exec passes to it is retried here.
- Ports.PortsDifferWhenFarApart: up to the number of hosts for which int32 does not overflow.
- Names.StatefulSetNameDetermines: host names longer than fifteen characters are cut, so it is stated for those that are not; Names.StatefulSetNamesCollide covers all. Name patterns are the default ones.
- Fingerprints.SliceIsCanonical: the hash of the slice is left out.
- Fingerprints.AsSortedSliceOfStrings: sorting is by insertion, in place of the library's algorithm.
- Nearest-wins for DataVolumeClaimTemplate, and the merging of defaults of the installation: deprecated fields and fill-empty merging break such a law.
- Kubernetes clients, informers, queues, events, logging, metrics, the operator's configuration files, and the SQL of the schemer: input and output.
- Users, passwords, secrets, status strings and simple getters: they would only add easy members.
