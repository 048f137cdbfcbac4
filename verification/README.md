# kube-shard, modelled and proved in Dafny

kube-shard is a Kubernetes operator that moves API groups to a secondary API server.
This project models its reconcile protocols and states what they guarantee for every
input, every run and every interleaving, with the conditions under which a guarantee
fails. `dafny verify dfyconfig.toml` checks everything.

| files | part of the system |
|---|---|
| `ShardStatus`, `Conditions`, `ShardReconciler` | the status one APIShard pass computes, as functions and as the in-place updates of the shard object |
| `ShardRuns` | the APIShard controller as a machine over API calls, with crashes, conflicts, spec edits and deletion |
| `Aggregation`, `CrdSync` | registration of APIServices, availability, CRD conflicts and CRD sync |
| `ClientCache`, `Fingerprint` | the client cache under concurrent callers, and what its fingerprint distinguishes |
| `NamespaceSync`, `WebhookSync`, `ServiceUrl` | the two mirror controllers and the service-to-URL rewrite |
| `PostgresVolumes` | preservation of immutable volume claim templates over a history of spec edits |
| `WatchPredicates` | the event filters, against what the reconciler computes |
| `Prelude`, `Decimals` | shared types, listings and decimal numerals |
| `PaddedScripts`, `LoadGenerator` | the load-test generator: sizes, matrices, extract-and-generate fixpoint |

How the outside world appears:

- An API call has an `Outcome`: done, refused, or ambiguous (it took effect and still
  reported an error). Methods take the outcomes of their calls as a function of the call's
  number, so a contract covers every pattern of failures.
- A protocol is a function from a state and an event to the next state; a run is a
  sequence of events. Clusters are maps or sets of names passed by value. Objects the
  program updates in place (`APIShard`, `ClientProvider`, `CrdCopy`, `StatefulSet`) are classes.
- Status and finalizer writes are conditional on the resource version. Reads are fresh.
- Clocks, random draws, the serialised size of a task and the hash are parameters. The
  hash is arbitrary; where injectivity is needed it is an explicit hypothesis.

Where an obvious claim does not hold, the code is kept and the exact condition is proved:

- Deleting a shard leaves no APIService behind if and only if all live ones are in the
  persisted list. `CrashLeaks` gives a run where they are not: the list is persisted only by
  the last write of a pass. The comment at `operator/internal/controller/apishard/reconciler.go:145-152`
  says the finalizer deregisters APIServices first; that holds for the listed ones.
- The cache agrees with building a client directly if and only if the caller's credentials
  contain no NUL.
- A rewritten webhook URL names the original service if and only if the reference is
  printable: name and namespace are lower-case text that a host of RFC 3986 may hold as it
  stands, the name has no dot, the port is not negative, and the path is empty or starts with
  a slash and is text that a path may hold as it stands, so without a query, a fragment or a
  percent sign. `ExtraIsDropped` and `UnprintableCollide` give references outside that set.
- An APIService name determines its group and version if and only if the version has no dot.
- The text of an availability check is safe from dropped updates if and only if no owned
  service holds the shard up with an Available condition of its own; the verdict always is.
- After a pass a selected namespace carries its filtered labels if and only if it was missing
  before or had them already.
- After a completed sweep a wanted webhook configuration is on the secondary if and only if
  its own Get and write went through in that pass. `UpToDateLost` gives the pass that removes
  one that was up to date.
- A pass ends Ready if and only if the deployments are healthy and the CRD conflict is
  settled. When the listing of CRDs fails, settled means what an earlier pass recorded, and
  `FailedListingHidesConflict` gives the pass that is Ready over an unseen conflict.
- A StatefulSet created by a pass matches the request of that pass if and only if the request
  keeps to the origin of the templates the pass holds: its own if there was no StatefulSet at
  the read, the old ones if it vanished after the read. `VanishedComesBack` gives that history.

## Model

| member | source | states |
|---|---|---|
| `ShardRuns.RunTracks` | operator/internal/controller/apishard/reconciler.go:134-301 | after every sequence of calls (each done, refused or ambiguous), crashes, spec edits, deletion marks and outside removals: live APIServices are in the persisted list, were applied by the running pass, or by a pass whose list was lost; once the shard is gone only lost ones can remain, and a pass that finished left exactly the desired names, but for lost and vanished ones |
| `ShardRuns.RunCoherent` | operator/internal/controller/apishard/reconciler.go:190-301 | in every run every persisted status is coherent (phase Error exactly when Reconciled is False; Ready implies Reconciled and SecondaryHealthy True, no message, no failed CRD sync, and AllAvailable once CRDs were synced), and a pass that returned without error persisted Ready without a delay or Provisioning with one |
| `ShardRuns.RunDeletesOnlyListed` | operator/internal/controller/apishard/reconciler.go:153-173 | in every run the operator deletes only names some persisted list held, and every listed name was applied by this shard before |
| `ShardRuns.FinishedOnCurrentSpec` | operator/internal/controller/apishard/reconciler.go:287-298 | the final write goes through only if the spec the pass worked on is the one stored at that moment |
| `ShardRuns.TroubleExact` | operator/internal/controller/apishard/reconciler.go:134-301 | a call fails the pass exactly when a step reports an error, a call does not go through, or a write is refused or meets a newer object; the first error in step order is then about to be recorded |
| `ShardRuns.TroubledPassFails` | operator/internal/controller/apishard/reconciler.go:134-301 | in every run a pass that met such an answer ends failed or crashed, so a pass that finished met none |
| `ShardRuns.CallEffects` | operator/internal/controller/apishard/reconciler.go:134-301 | what every call does to the stored shard and to the live APIServices, ambiguous and conflicting ones included, and that it does nothing else to them |
| `ShardRuns.BeginRules` | operator/internal/controller/apishard/reconciler.go:137-182 | how a pass starts: failed, nothing to do, clean-up before a deletion, or the finalizer first |
| `ShardRuns.RunKeeps` | operator/internal/controller/apishard/reconciler.go:134-301 | the invariant that ties memory, persisted status and live APIServices together is kept by every event of every run |
| `ShardRuns.ApplyKeeps` | operator/internal/aggregation/apiservice.go:77-117 | an apply, whatever its answer and whatever happened to the stored shard meanwhile, keeps that invariant |
| `ShardRuns.SweepKeeps` | operator/internal/aggregation/apiservice.go:119-140 | so does every Get and Delete of the orphan sweep |
| `ShardRuns.CloseKeeps` | operator/internal/controller/apishard/reconciler.go:287-300 | so does the final status write, accepted, refused, conflicting or ambiguous |
| `ShardRuns.DeletionPassExact` | operator/internal/controller/apishard/reconciler.go:153-173 | an undisturbed deletion pass removes the shard and exactly the registered names; nothing stays behind if and only if everything live was in the persisted list |
| `ShardRuns.CrashLeaks` | operator/internal/controller/apishard/reconciler.go:1120-1142 | for every spec with an APIService there is a run (crash after the first apply, then deletion) that leaves the shard gone and that APIService live, in every continuation in which nobody else removes it |
| `ShardRuns.StrayStays` | operator/internal/controller/apishard/reconciler.go:153-173 | a live name that no stored list, no spec and no copy in memory mentions stays live in every continuation without an outside removal or an edit that asks for it |
| `ShardRuns.RegistrationFollows` | operator/internal/aggregation/apiservice.go:56-148 | under every pattern of answers the machine can make the calls of the registration method: it leaves the same names live and goes on to finish or to record an error as the method succeeds or fails |
| `ShardRuns.PassRefined` | operator/internal/controller/apishard/reconciler.go:134-301 | the calls of an undisturbed pass persist what the status function computes, return what it returns, and leave live what was not registered before plus the desired names |
| `ShardRuns.PassFollows` | operator/internal/controller/apishard/reconciler.go:134-301 | for every pattern of answers to the registration calls the machine persists and returns what the status function gives for the outcome of the registration, error included, and leaves live what the registration leaves live |
| `ShardRuns.SecondPassSettles` | operator/internal/controller/apishard/reconciler.go:134-301 | after an undisturbed pass another one in the same environment, at any later time, leaves the stored status, the return value and the live APIServices as they are |
| `ShardStatus.PassIdempotent` | operator/internal/controller/apishard/reconciler.go:190-301 | from every status and in every environment, on every path, a second pass persists exactly the status of the first, transition times included, with the same error and delay |
| `ShardStatus.NoSilentStall` | operator/internal/controller/apishard/reconciler.go:276-300 | a pass that returns neither error nor delay persisted Ready; without an error the delay is positive exactly with Provisioning |
| `ShardStatus.PassErrors` | operator/internal/controller/apishard/reconciler.go:184-279 | a pass returns no error exactly when no step failed and the health step was not cut short; otherwise it returns the first failure in the order of the steps, and all but the errors of the health step are persisted as phase Error with their text |
| `ShardStatus.PassRecords` | operator/internal/controller/apishard/reconciler.go:184-301 | the status of a pass without an error says what the pass saw, condition by condition: storage, monitoring, CRD conflict, the two sync reports under their own conditions, endpoint, connection, phase and delay |
| `ShardStatus.FinishReportsServices` | operator/internal/controller/apishard/reconciler.go:1574-1709 | exactly what is reported about APIServices: unhealthy, available, not available with the text of the check, removed, or left as it was |
| `ShardStatus.FinishCoherent` | operator/internal/controller/apishard/reconciler.go:274-300 | the status written last is coherent and lists the desired names, whatever the status before and the answers of the cluster |
| `ShardStatus.ReadyRestsOn` | operator/internal/controller/apishard/reconciler.go:1574-1709 | Ready is written if and only if the deployments are healthy and the conflict is settled: none found, or synced and confirmed by the availability check, or, when the listing failed, not recorded as failed before and confirmed if recorded as synced |
| `ShardStatus.RecordErrorCoherent` | operator/internal/controller/apishard/reconciler.go:1754-1770 | the error status is coherent and keeps the registered list |
| `ShardStatus.GateSound` | operator/internal/controller/apishard/reconciler.go:1652-1709 | the availability gate touches only its own condition and the phase, lets the pass through only when the taken-over CRDs are served, and otherwise asks for Provisioning |
| `ShardStatus.HealthSound` | operator/internal/controller/apishard/reconciler.go:1574-1645 | health reporting touches only its own conditions, the phase and the endpoint; the delay is positive exactly with Provisioning and zero exactly with Ready |
| `ShardStatus.HealthBroken` | operator/internal/controller/apishard/reconciler.go:1574-1645 | exactly when the health step returns an error: unreadable deployments, or a failing APIService listing while CRDs are synced and deployments healthy |
| `ShardStatus.FinishFixed` | operator/internal/controller/apishard/reconciler.go:274-300 | the part after registration is a fixpoint of itself at any later time |
| `Conditions.Set` | operator/internal/condition/condition.go:33-37 | the condition then says the new verdict, all others are as before, nothing changes if it was already said, and the transition time stays unless the status changes |
| `Conditions.FindExact` | operator/internal/controller/apishard/reconciler.go:1661-1664 | the condition found is the first of its type, and none is found exactly when there is none |
| `Conditions.Remove` | operator/internal/controller/apishard/reconciler.go:1674-1677 | no condition of the type is left, all others are as before |
| `ShardReconciler.APIShard.Reconcile` | operator/internal/controller/apishard/reconciler.go:184-301 | the method that updates the shard object step by step stores and returns what the status function gives; it returns no error exactly when no step failed and the health step was not cut short, and then the stored status is coherent, lists the desired names, and is Ready exactly without a delay; coherence is never lost |
| `ShardReconciler.APIShard.UpdateHealthStatus` | operator/internal/controller/apishard/reconciler.go:1574-1645 | in-place update equals the health step, including its early error exits |
| `ShardReconciler.APIShard.CheckAPIServiceAvailability` | operator/internal/controller/apishard/reconciler.go:1652-1709 | in-place update equals the gate step; on an error nothing changed |
| `ShardReconciler.APIShard.ReconcileCRDConflicts` | operator/internal/controller/apishard/reconciler.go:1527-1569 | in-place update equals the conflict step; a failed listing keeps the old condition |
| `ShardReconciler.APIShard.AggregateSubCRStatus` | operator/internal/controller/apishard/reconciler.go:1326-1358 | in-place update equals the step that copies the Ready conditions of the sync objects |
| `ShardReconciler.APIShard.SetErrorAndRequeue` | operator/internal/controller/apishard/reconciler.go:1754-1770 | in-place update and write equal the error step |
| `ShardReconciler.RegisterAndCheck` | operator/internal/controller/apishard/reconciler.go:1120-1142 | a positive availability check after a successful registration covers every desired name: registered by this shard and available |
| `ShardReconciler.RegisterSyncAndGate` | operator/internal/controller/apishard/reconciler.go:269-279 | if the listing succeeded, the pass ends Ready and a primary CRD is in an aggregated group, every such CRD is on the secondary in transformed form and every desired APIService is registered, owned and available; if the listing failed the secondary is untouched, and an earlier record decides |
| `ShardReconciler.FailedListingHidesConflict` | operator/internal/controller/apishard/reconciler.go:1527-1534 | a failed first listing lets a pass end Ready with no word of a conflict although the primary has a CRD of an aggregated group; after any successful listing that pass is Ready if and only if the CRDs were synced and the APIServices confirmed |
| `Aggregation.Reconcile` | operator/internal/aggregation/apiservice.go:56-148 | live names, number of calls and success are those of the call-by-call function for every pattern of answers; success exactly when every call went through, and then live names are the old ones minus the previously registered plus the desired, each with the backend, CA, verification and owner of the shard; only previously registered names disappear, only desired ones appear, foreign ones are untouched and no owner is lost |
| `Aggregation.ApplyDesired` | operator/internal/aggregation/apiservice.go:77-117 | the apply loop only adds or updates desired names, and registers all of them if no call failed |
| `Aggregation.DeleteOrphans` | operator/internal/aggregation/apiservice.go:119-140 | the sweep removes only registered names that are no longer desired, all of them if no call failed |
| `Aggregation.CheckAvailability` | operator/internal/aggregation/apiservice.go:152-197 | true exactly when the shard owns an APIService and the first Available condition of every owned one has status True; the text says that none is owned, or names the first owned one that is not available with its message or its missing condition, or is empty |
| `Aggregation.FirstBlockingExact` | operator/internal/aggregation/apiservice.go:174-194 | there is no such service exactly when all owned ones are available, and the one found is owned and not available |
| `Aggregation.DesiredAPIServiceNames` | operator/internal/aggregation/apiservice.go:199-207 | the nested loop yields the names of all group versions in order |
| `Aggregation.DesiredNamesExact` | operator/internal/aggregation/apiservice.go:199-211 | a name is desired exactly when it is version, dot, group for a version of a group of the spec |
| `Aggregation.ServiceNameInjective` | operator/internal/aggregation/apiservice.go:209-211 | pairs with dot-free versions and the same name are equal |
| `Aggregation.ServiceNameDetermines` | operator/internal/aggregation/apiservice.go:209-211 | a name determines its version and group among dot-free versions exactly when its own version has no dot |
| `CrdSync.DetectAndSync` | operator/internal/controller/apishard/reconciler.go:1527-1565 | no conflict exactly when no primary CRD is in an aggregated group; otherwise the sync succeeds exactly when there is a client and every call goes through, and then every such CRD is on the secondary in transformed form; other CRDs there are untouched |
| `CrdSync.DetectCRDConflicts` | operator/internal/aggregation/conflict.go:43-79 | the loops return the names of the CRDs of aggregated groups, in order |
| `CrdSync.ConflictingExact` | operator/internal/aggregation/conflict.go:57-69 | a name is reported exactly when a CRD of that name is in an aggregated group |
| `CrdSync.SyncCrds` | operator/internal/controller/apishard/reconciler.go:1401-1433 | every name not reported as an error is on the secondary as the image of its primary CRD; with all calls done the errors are exactly the names missing on the primary; nothing else changes |
| `CrdSync.CrdCopy.TransformConversion` | operator/internal/controller/apishard/reconciler.go:1440-1472 | the in-place rewrite changes the conversion client and nothing else |
| `CrdSync.ImageKeepsMeaning` | operator/internal/controller/apishard/reconciler.go:1402-1472 | idempotent; labels, annotations, spec, strategy and review versions stay; a conversion client has its service replaced by the URL and keeps its CA bundle; its endpoint is kept exactly when the service address is printable |
| `ServiceUrl.PrintReads` | operator/internal/controller/webhooksync/reconciler.go:298-368 | parsing the printed URL by RFC 3986 (percent-encoding of section 2.1, a host of reg-name characters that ignores case and a port as in section 3.2, a path that ends at a query or fragment as in section 3.3) gives back name, namespace, port and path after defaulting, exactly for printable references |
| `ServiceUrl.PrintInjective` | operator/internal/controller/webhooksync/reconciler.go:298-368 | two printable references print alike exactly when they are equal after defaulting |
| `ServiceUrl.ParsedIsPrintable` | operator/internal/controller/webhooksync/reconciler.go:298-368 | every URL without percent-encoding that can be read names a printable endpoint |
| `ServiceUrl.ExtraIsDropped` | operator/internal/controller/webhooksync/reconciler.go:298-368 | a query or fragment in the path of a reference is lost: its URL names the endpoint without it, for every printable reference and every such text |
| `ServiceUrl.UnprintableCollide` | operator/internal/controller/webhooksync/reconciler.go:298-368 | with a dot in a service name two different services print as one URL |
| `ServiceUrl.RewriteKeepsMeaning` | operator/internal/controller/apishard/reconciler.go:1440-1472 | the rewrite replaces a service by its URL, keeps the CA bundle, leaves a configuration without a service whole, and keeps the endpoint exactly when the reference is printable |
| `ServiceUrl.PrintSpelled` | operator/internal/controller/webhooksync/reconciler.go:311-316 | the URL, spelled out: https, name, namespace, svc, the port or 443, the path or nothing |
| `ClientCache.ReturnsProper` | operator/internal/secondary/client.go:76-112 | for any number of threads and any interleaving of get, inject and invalidate under an explicit read/write lock: a returned client was injected or built for the same host and fingerprint, and with an injective hash and NUL-free credentials from the very configuration asked for |
| `ClientCache.ProperExactlyIfNulFree` | operator/internal/secondary/client.go:76-218 | with an injective hash the cache agrees with building a client directly, in its configuration and in the REST configuration it connects with, for every run if and only if no field of the configuration contains a NUL |
| `ClientCache.PinnedStays` | operator/internal/secondary/client.go:76-130 | no step of any run changes a pinned entry unless it injects under or invalidates that key |
| `ClientCache.WritesExact` | operator/internal/secondary/client.go:93-130 | what each step under the write lock does to the map: removes, pins, stores or leaves its key, and no other |
| `ClientCache.DroppedIsGone` | operator/internal/secondary/client.go:126-130 | in every run the entry is gone once an invalidation is through |
| `ClientCache.OneClient` | operator/internal/secondary/client.go:76-112 | if all callers of a key use one configuration and nobody injects or invalidates, at most one client is ever built for it and every caller that returned got it |
| `ClientCache.StepKeeps` | operator/internal/secondary/client.go:76-130 | every step of every thread keeps the lock discipline, the provenance of entries and what threads know of the map |
| `ClientCache.ClientProvider.GetOrCreate` | operator/internal/secondary/client.go:76-112 | sequentially: the client is pinned or built for the caller's host and fingerprint, and with an injective hash and NUL-free credentials for the very configuration; a hit builds nothing, a failure changes nothing, other keys are untouched |
| `Fingerprint.SerialiseDetermines` | operator/internal/secondary/client.go:183-218 | host and serialisation determine a configuration, and the REST configuration built from it, if and only if it has no NUL in any field |
| `Fingerprint.SerialiseInjective` | operator/internal/secondary/client.go:183-193 | injectivity needs NUL-freeness of the first three fields only |
| `Fingerprint.BuildRESTConfig` | operator/internal/secondary/client.go:195-218 | verification is off exactly without a CA, a token wins over a certificate, a certificate is used only with its key |
| `NamespaceSync.Reconcile` | operator/internal/controller/namespacesync/reconciler.go:70-187 | with any failing or ambiguous writes: only selected names that are not excluded appear, only names neither selected nor reserved disappear; the distance of the secondary from the target never grows during the pass and ends at most at the number of recorded errors, which is the number of failed writes; complete means exactly the selected names and the reserved ones that were there; on target nothing is written |
| `NamespaceSync.PassTwice` | operator/internal/controller/namespacesync/reconciler.go:110-187 | after a complete pass the next one writes nothing and reports the same |
| `NamespaceSync.CreateMissing` | operator/internal/controller/namespacesync/reconciler.go:146-155 | creations only add desired names with the filtered labels, and every desired name still missing is recorded |
| `NamespaceSync.DeleteOrphans` | operator/internal/controller/namespacesync/reconciler.go:157-166 | deletions spare desired and system names, and every orphan still there is recorded |
| `NamespaceSync.Accounted` | operator/internal/controller/namespacesync/reconciler.go:144-166 | every name still wrong after both loops is among the recorded errors, so their number bounds the distance |
| `NamespaceSync.FilterLabels` | operator/internal/controller/namespacesync/reconciler.go:240-252 | the loop keeps every label but kubernetes.io/metadata.name, and nil stays nil |
| `NamespaceSync.LabelsExact` | operator/internal/controller/namespacesync/reconciler.go:146-155 | after a pass a selected namespace has its filtered labels if and only if it was missing before or had them already |
| `WebhookSync.Reconcile` | operator/internal/controller/webhooksync/reconciler.go:93-199 | whenever both sweeps finish: nothing outdated is left, Ready is reported if and only if both halves of the secondary are exactly the image of the matching primary configurations, and otherwise the number of errors is the number of missing configurations; Ready is never reported without the sweeps and carries the sizes of the halves |
| `WebhookSync.SyncAll` | operator/internal/controller/webhooksync/reconciler.go:106-132 | the loop makes the calls of the step function over the listing; synced names hold the image of their primary configuration, failed ones are recorded once, untouched ones stay, and the count is the size of the synced set |
| `WebhookSync.DeleteStale` | operator/internal/controller/webhooksync/reconciler.go:220-262 | only names outside the synced set disappear, all of them if the sweep finishes |
| `WebhookSync.KindSwept` | operator/internal/controller/webhooksync/reconciler.go:168-174 | sync loop and finished sweep together: only current images remain, exactly the synced ones, the missing ones are exactly the failed ones, and nothing is missing if and only if nothing failed |
| `WebhookSync.FailedIsRemoved` | operator/internal/controller/webhooksync/reconciler.go:124-174 | after a finished sweep a wanted configuration is on the secondary if and only if its own Get and write went through in this pass |
| `WebhookSync.UpToDateLost` | operator/internal/controller/webhooksync/reconciler.go:114-174 | the input that shows it: a configuration already as wanted, whose Get or Update does not go through, is gone after the sweep |
| `WebhookSync.ShouldSync` | operator/internal/controller/webhooksync/reconciler.go:266-295 | true exactly when some rule of some webhook names a target group or the wildcard |
| `WebhookSync.WantedExact` | operator/internal/controller/webhooksync/reconciler.go:100-165 | a configuration is wanted exactly when it is on the primary and such a rule exists |
| `WebhookSync.Transform` | operator/internal/controller/webhooksync/reconciler.go:298-354 | the copy has the image as content and no server-set metadata |
| `WebhookSync.ImageKeepsMeaning` | operator/internal/controller/webhooksync/reconciler.go:298-354 | idempotent; every webhook stays at its place with its name, rules, CA bundle and other fields, its service replaced by the URL; selected for the same groups; and the endpoint of each webhook is kept exactly when its service address is printable |
| `PostgresVolumes.HistoryPreserves` | operator/internal/controller/apishard/reconciler.go:439-549 | over every history of spec edits, outside deletions, crashes and passes whose read of the shard, read of the StatefulSet and apply are separate steps: no apply is refused for changing claim templates, the live templates are those of the creation, volume names are unique, each mount has exactly one backing, and aligning with itself changes nothing |
| `PostgresVolumes.PassJudges` | operator/internal/controller/apishard/reconciler.go:492-549 | after every such history the read reports StorageReady for a live StatefulSet exactly when the request of the pass keeps to the request that StatefulSet descends from (kind of storage, size, class asked for or filled in), and for a missing one always; what the pass then holds comes from that StatefulSet, or from its own request if there was none |
| `PostgresVolumes.JudgedHolds` | operator/internal/controller/apishard/reconciler.go:467-475 | what a pass judged ready is true of what its apply leaves, even if the StatefulSet vanished in between, and templates that are there are never changed |
| `PostgresVolumes.CreationFits` | operator/internal/controller/apishard/reconciler.go:467-475 | an apply that creates a StatefulSet leaves templates matching the request of its pass if and only if that request keeps to the origin of the templates the pass holds; with its own request as origin it always does |
| `PostgresVolumes.VanishedComesBack` | operator/internal/controller/apishard/reconciler.go:467-475 | a StatefulSet that vanishes between read and apply comes back with its old templates, for any two requests, although nothing was there when the new request was applied |
| `PostgresVolumes.EventRules` | operator/internal/controller/apishard/reconciler.go:467-549 | differing templates are refused and change nothing; a crash or a failed read ends a pass without a trace; a pass begins only when none is running, with the spec of that moment |
| `PostgresVolumes.MatchesCreation` | operator/internal/resources/postgresql_volumes.go:60-103 | against templates of a known origin, exactly which requests match, class defaulting included |
| `PostgresVolumes.MatchesPreorder` | operator/internal/resources/postgresql_volumes.go:60-103 | matching is reflexive and transitive, and defaulting the storage class stays within it |
| `PostgresVolumes.VolumeClaimTemplatesMatch` | operator/internal/resources/postgresql_volumes.go:60-79 | the loop decides matching |
| `PostgresVolumes.StatefulSet.Align` | operator/internal/resources/postgresql_volumes.go:32-54 | the in-place rewrite takes the live templates, and then drops the volumes they replace or, if there are none, restores the live emptyDir volumes |
| `PostgresVolumes.PreserveVolumeClaimTemplates` | operator/internal/controller/apishard/reconciler.go:492-549 | no StatefulSet: nothing changes and storage is ready; otherwise the desired one is aligned in place and ready says whether the request matched |
| `PostgresVolumes.AlignStable` | operator/internal/resources/postgresql_volumes.go:32-54 | for any two StatefulSets aligning again changes nothing, against the live one or against the result |
| `PostgresVolumes.AlignedMembers` | operator/internal/resources/postgresql_volumes.go:32-54 | exactly which volumes an aligned StatefulSet has: with live templates the desired ones none of them replaces, without any the desired ones and the live emptyDir volumes whose name is free |
| `PostgresVolumes.BuiltExact` | operator/internal/resources/postgresql.go:121-190 | a claim named data of the asked size and class, or an emptyDir, and the fixed volumes under the names of the shard |
| `PostgresVolumes.ShapedBacks` | operator/internal/resources/postgresql.go:121-190 | every mount of a built or aligned StatefulSet is backed exactly once, data by a claim or by an emptyDir and never both |
| `PostgresVolumes.StatefulSet.constructor` | operator/internal/resources/postgresql.go:121-190 | the volume list is built step by step into the claim or emptyDir form |
| `PostgresVolumes.AppendMissing` | operator/internal/resources/postgresql_volumes.go:47-53 | restores exactly the live emptyDir volumes the desired list lacks, in order |
| `WatchPredicates.NoLostWakeUp` | operator/internal/predicate/predicate.go:85-160 | after any sequence of creations, updates and deletions the deployment-health verdict and the all-available verdict are those of the cluster at the last delivered event |
| `WatchPredicates.DroppedExact` | operator/internal/predicate/predicate.go:34-160 | an update is dropped exactly when it changes neither generation, labels, annotations or owners, nor a replica count, nor the status of the Available condition |
| `WatchPredicates.ReadinessExact` | operator/internal/predicate/predicate.go:85-126 | the readiness predicates on any pair of objects, missing ones and other kinds included |
| `WatchPredicates.AvailabilityExact` | operator/internal/predicate/predicate.go:147-160 | the availability predicate on any pair of objects, missing ones and other kinds included |
| `WatchPredicates.NoMissedEdit` | operator/internal/predicate/predicate.go:34-160 | over any sequence of events generation, labels, annotations and owners of every object are those at the last delivered event |
| `WatchPredicates.DroppedAgrees` | operator/internal/predicate/predicate.go:34-160 | a dropped update keeps kind, owners, replica counts and availability of every object |
| `WatchPredicates.DetailExact` | operator/internal/predicate/predicate.go:130-160 | the text of the availability check, which reaches the shard status, is safe from every dropped update if and only if no owned service holds the shard up with an Available condition of its own |
| `WatchPredicates.ReasonMayGoStale` | operator/internal/predicate/predicate.go:130-160 | the failing input: if the first owned service that is not available has an Available condition, some dropped update changes the text |
| `WatchPredicates.DetailKept` | operator/internal/predicate/predicate.go:85-160 | over any sequence of events the text is that of the last delivered event, unless such a service held the shard up then |
| `WatchPredicates.CheckAPIServices` | operator/internal/aggregation/apiservice.go:152-197 | CheckAvailability over the listed APIServices decides the all-available verdict and returns the text these lemmas are about |
| `WatchPredicates.CheckDeploymentHealth` | operator/internal/controller/apishard/reconciler.go:1713-1749 | no verdict exactly when a workload is missing or of another kind, healthy exactly when every workload has replicas and all are ready |
| `PaddedScripts.PadScriptLength` | tools/generate-from-pipeline/generator.go:301-320 | a script has its target length, one byte less exactly when the padding needed is 1 modulo 4, and stays bare when at most one byte fits |
| `PaddedScripts.PadScriptRuns` | tools/generate-from-pipeline/generator.go:301-320 | whatever the random bytes, the only line of the script that is not a comment is the sleep |
| `PaddedScripts.EncodeLength` | tools/generate-from-pipeline/generator.go:313-315 | base64 as in section 4 of RFC 4648 gives four characters per three bytes begun and no line break |
| `PaddedScripts.EncodeReads` | tools/generate-from-pipeline/generator.go:313-315 | decoding the encoding gives the bytes back |
| `PaddedScripts.PaddedTo` | tools/generate-from-pipeline/generator.go:301-320 | a target of a hundred bytes or more is met up to one byte for every 64-bit sleep |
| `LoadGenerator.TaskSize` | tools/generate-from-pipeline/generator.go:220-271 | the scripts of a task sum to more than the size that applies (inline, else bundle, else default) minus two bytes per step and at most that size, or to between 99 and 100 bytes per step if it is below that |
| `LoadGenerator.TaskSteps` | tools/generate-from-pipeline/generator.go:220-271 | the steps of a task are its inline ones, else those of a resolved bundle, else the default number and at least one: their number, names, image and preserved resources, each sleeping within the bounds and doing nothing else |
| `LoadGenerator.TaskFrame` | tools/generate-from-pipeline/generator.go:273-294 | name, constraints, no reference, and the matrix with each value resolved and one string parameter per parameter |
| `LoadGenerator.GeneratedSteps` | tools/generate-from-pipeline/generator.go:188-194 | every task of the generated run, finally tasks included, gets its steps from its own spec or from what its own name was resolved to |
| `LoadGenerator.GenerateTwice` | tools/generate-from-pipeline/generator.go:168-295 | extracting from the output and generating again reproduces everything but the scripts: tasks, order, finally split, constraints, step counts and names, resources, matrices, parameters and overrides |
| `LoadGenerator.GenerateKeepsPipeline` | tools/generate-from-pipeline/generator.go:168-213 | the output has the tasks of the input in order and on the same side of the finally split, with name, constraints and matrix parameters; inline steps keep number and names |
| `LoadGenerator.TaskAgain` | tools/generate-from-pipeline/generator.go:220-295 | one generated task, generated again, differs at most in its scripts, whatever the bundle results and sizes |
| `LoadGenerator.MatrixExpansionCount` | tools/generate-from-pipeline/generator.go:146-160 | the running product is the number of combinations of the non-empty value lists, or of the includes when there are no parameters |
| `LoadGenerator.CombinationsExact` | tools/generate-from-pipeline/generator.go:146-160 | the combinations are exactly the choices of one value per list |
| `LoadGenerator.ResolveMatrixValues` | tools/generate-from-pipeline/generator.go:105-141 | the loops give the resolved matrix: same parameters in order, same includes, values resolved one by one |
| `LoadGenerator.ResolvedValueExact` | tools/generate-from-pipeline/generator.go:122-139 | a single reference to an array parameter becomes that array, every other value stays |
| `LoadGenerator.ExtractTaskInfos` | tools/generate-from-pipeline/generator.go:50-62 | the loops give one entry per task, regular ones first |
| `LoadGenerator.ExtractSingleTaskInfo` | tools/generate-from-pipeline/generator.go:66-100 | the last bundle and name parameters win, and the inline metrics are those of the steps |
| `LoadGenerator.GeneratePipelineTask` | tools/generate-from-pipeline/generator.go:220-295 | the loop-built task is the planned one |
| `LoadGenerator.GeneratePipelineRun` | tools/generate-from-pipeline/generator.go:168-213 | the loop-built run splits the tasks by kind and forwards the overrides of known tasks |
| `LoadGenerator.ForwardedExact` | tools/generate-from-pipeline/generator.go:183-209 | for a generated task the resources of its last override are forwarded under its name exactly when resources are preserved and there are any |
| `LoadGenerator.RandomInt` | tools/generate-from-pipeline/generator.go:325-334 | for bounds whose range fits 64 bits the result lies between them, and is the lower bound if they are reversed |

## Left out

- `tracking.Client` (ApplyOwned, CleanupOrphans, ownership labels) and hashed config maps: library code, seen only as calls that may fail.
- Resource builders other than the volumes of the PostgreSQL StatefulSet: they return constant object literals.
- Discovery of issuer, ServiceMonitor and SCC, and PostgreSQL connection strings: they rest on library parsing.
- The periodic ticker, event handlers and watch set-up: their guarantees are those of controller-runtime.
- HealthChecker and the secret reads of BuildClient: network and secret access.
- Bundle pulling and the command line of the generator; task sizes of the printed summary.
- YAML: the size of a serialised task is a parameter, and cleanup of the output text is not modelled.
- Several shards or several sync objects aimed at the same names, and re-creation of a shard under a leaked name.
- Stale cached reads, and fields of an APIService owned by several field managers.
- The steps between the finalizer and the registration are one answer each; their own objects are not followed in `ShardRuns`.
- The list of errors joined into one message: message texts are carried, not their composition from several errors.
- Integer widths: counts and generations are unbounded. Only the sleep bounds of the generator are 64-bit.
- ShardReconciler.RegisterSyncAndGate: speaks of a pass in which nobody else changes the APIServices or CRDs.
- NamespaceSync.Reconcile: an accepted delete counts as removal.
- ServiceUrl.PrintReads: reads URLs with an explicit port only, the form the rewrite prints, and does not remove dot segments from paths.
- LoadGenerator.RandomInt: takes only bounds whose range fits 64 bits; for others the source panics in its entropy call.
- PostgresVolumes.HistoryPreserves: only the operator creates the StatefulSet, and a call does not take effect after the crash of its pass.
- LoadGenerator.GenerateTwice: uses one configuration for both generations, and the parameters and overrides of the generated run for the second.
- LoadGenerator.GeneratePipelineRun: name prefix, namespace and type metadata are constants of the configuration and are not carried.
- WatchPredicates.NoLostWakeUp: resynchronisation events and objects outside the three filtered kinds are always delivered and not distinguished.
