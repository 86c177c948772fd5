# Verification model of the Cloud Native Security Inspector

This project models the parts of the Cloud Native Security Inspector that carry state, protocols or exact
text handling, and proves what they guarantee. It is written in Dafny; `dafny verify dfyconfig.toml` checks
the whole of it. Each part has a model (states, steps, functions), the methods in the source's own imperative
form tied to that model, and the results.

| part | files |
|---|---|
| goroutine pool | `PoolModel`, `PoolSafety`, `PoolProgress`, `PoolOrder`, `PoolObject` |
| quarantine of workloads | `Quarantine`, `QuarantineSafety`, `QuarantineEffect`, `QuarantineLabels`, `QuarantineObject`, `QuarantineCollected` |
| scan jobs of the Trivy scanner | `ScanJobs`, `ScanJobSafety`, `ScanJobObject` |
| variable substitution of kube-bench | `Substitution`, `SubstitutionOrder`, `SubstitutionExact`, `SubstitutionResult` |
| artifact identities | `Artifact`, `ArtifactRoundTrip`, `ArtifactResult` |
| benchmark versions | `BenchmarkVersion`, `BenchmarkResult` |
| security data cache and verdicts | `SecurityCache`, `SecurityCacheResult`, `ImageScan` |
| Harbor registries | `Registries`, `RegistriesResult`, `RegistriesConverge` |
| CronJobs of inspection policies | `CronJobs`, `CronJobSafety`, `CronJobResult`, `CronJobDeletion`, `CronJobStatus`, `CronJobObject` |
| workloads and containers | `Workloads`, `WorkloadsResult`, `WorkloadOwners` |
| loaded vulnerabilities | `Lsof`, `PkgLoad`, `PkgLoadResult` |
| retry | `Retry`, `RetryResult` |
| shared | `Wrappers`, `Strings`, `Sequences` |

## How the source is modelled

- **Remote calls.** Kubernetes, Redis and Harbor are abstract state. A call ends `Acked`, `Refused` without
  effect, or with a `LostReply`: it took effect, and the caller is told that it failed. In the classes an
  outcome is chosen freely; a ghost list of the outcomes ties each method to a fold over single steps
  (`Drive`, `Perform`, `Drives`), and the safety results are about arbitrary interleavings of those steps.
  Reads return the current state, except in the reconciler, whose caching client may show it any CronJobs: results
  there say when they need fresh reads.
- **Panics** are values: `panicked`, `Crashed`, `Panicked`, an `Err`, or `None`.
- **Map iteration** takes any remaining key, and the results hold for every order.
- **Go strings** are sequences of `char`, one for each byte; white space is the ASCII white space.
- **Pool.** A job yields at most one value on its channel. Nobody calls Close and the context is not
  cancelled: a cancelled processor drops queued jobs whose counter is never lowered.
- **Quarantine.** The jobs of one namespace follow each other; that is needed (`OverlapBreaksIsolation`). The
  workloads are those that the collector yields for the namespace; a pod without an owner has a workload with a blank
  reference. Calls for one object of a blank namespace are errors, a List there covers all namespaces. Pods made by
  others never carry both quarantine values. Enforce on a pod with a nil label map panics, and so it does here.
- **Scan jobs.** Records do not expire, ids are new, and a job runs once.
- **CronJobs.** Reconciles of one policy follow each other. The other parts of a reconcile only contribute
  whether the status needs an update.

## Findings

Where the code does not meet what one would expect of it, the model follows the code, and a lemma says exactly
when or shows a run:

- A workload that passes but has only some pods marked is not released (`VerdictTakesEffect`): HasBeenEnforced
  wants all pods marked.
- A pod without an owner that fails its inspection is never quarantined: Enforce asks for a policy in a blank
  namespace and fails (`OwnerlessIsNeverQuarantined`).
- A finished scan job can be marked failed exactly when the reply to its last write is lost and its worker goes on
  (`FinishedCanFailIff`), and a job whose worker is faster than Enqueue stays Queued for ever (`DeadJobReached`,
  `DeadJobStaysQueued`).
- The digest form of an image reference is cut at an index of the unprefixed text, so it fails for an omitted
  registry; a port is taken for a tag; a registry with docker.io in it keeps only the last path segment
  (`DigestFormAgreesIff`, `UntaggedKeptIff`, `RepositoryOf`). The tag of a reference may even be read as part of
  a digest when the text before it ends in "sha256".
- The version search also looks up the empty version (`SearchFindsGreatest`); an OpenShift version with a patch
  level is never accepted (`OcpAccepts`).
- A reference with an "@" after its digest panics (`PanicsIffAtBeyond`).
- The cache bounds the time since an answer was written, not since it was given
  (`AgeBoundIff`); Metadata.Equal confuses metadata with colons (`ConfusableIffColon`).
- InspectionExecutor takes the first CronJob of any type, which can keep the Inspection job from ever being
  created (`MisledForever`, `LateImageMisleads`), and is never replaced, so that after its job is deleted each
  reconcile creates another one (`DeletionMultiplies`, `StaysAtMostOneIff`). A stale list duplicates a CronJob
  (`StaleListDuplicates`).
- Suspending a policy does not suspend its CronJobs (`JobsNeverChange`), and resuming it is not shown in its status
  (`ShownIff`, `ResumeIsNotShown`).
- A pod that carries a foreign value under a quarantine key is marked but not selected by the policy
  (`EnforceIsolates`).
- A scan request that cannot be decoded leaves its record Queued for ever (`UndecodableStaysQueued`).
- Registering a new registry twice in one list fails, an already registered one twice does not
  (`SucceedsIffNewNamesDistinct`).
- A scanner report that is there but cannot be decoded ends the inspection of a workload without an assessment, which
  the job then dereferences when actions are configured (`Judge`, `ScanNamespace`).
- The parser of the lsof output panics on a field line before the first process (`PanicsIffOrphan`).
- A retry limit below one is no limit (`CanGiveUpIff`), and giving up uses up a delay that is not waited for
  (`GivingUpLosesOne`).

## Model

| member | source | states |
|---|---|---|
| PoolSafety.WaitReturnsAfterAllJobs | cnsi-manager/pkg/runtime/grpool/pool.go:94-188 | over every schedule, when Wait returns with as many jobs queued as planned, every queued job has run exactly once, and Wait returns nil exactly if no job emitted an error, otherwise the colon-join of all errors in completion order |
| PoolSafety.AlwaysBoundedAndCounted | cnsi-manager/pkg/runtime/grpool/pool.go:94-147 | at every point of every schedule the running jobs do not exceed the worker tokens, the counter is planned minus queued plus unfinished jobs, and no job has run more often than it was queued |
| PoolSafety.StepKeepsInv | cnsi-manager/pkg/runtime/grpool/pool.go:94-188 | every step of every goroutine keeps capacity, counter, accumulator and, for each job, the conservation of its copies over queue, processor, runners and finished jobs |
| PoolSafety.AccumulateJoins | cnsi-manager/pkg/runtime/grpool/pool.go:151-163 | handleLastError keeps the accumulator equal to the colon-join of the errors reported so far |
| PoolSafety.DrainedRanAll | cnsi-manager/pkg/runtime/grpool/pool.go:97-125 | a pool without unfinished jobs has run and reported each queued job exactly once |
| PoolProgress.StepDecreases | cnsi-manager/pkg/runtime/grpool/pool.go:97-125 | each step of client, processor or runner lowers one measure over unqueued, queued, held and running jobs |
| PoolProgress.SchedulesAreFinite | cnsi-manager/pkg/runtime/grpool/pool.go:97-125 | no schedule is longer than the initial measure |
| PoolProgress.StuckIsIdle | cnsi-manager/pkg/runtime/grpool/pool.go:97-125 | with a worker, a state in which nothing can move has an idle pool and a client at its end or at a Wait whose counter is above zero |
| PoolProgress.ServedIffBalanced | cnsi-manager/pkg/runtime/grpool/pool.go:97-188 | with a worker, every schedule carries a client program to its end without deadlock or a negative counter if and only if the client plans before it queues and waits only when all that was planned is queued; the queue size does not matter |
| PoolProgress.NoWorkersNoProgress | cnsi-manager/pkg/runtime/grpool/pool.go:109-110 | without workers no job runs and a Wait after a Plan never returns |
| PoolOrder.FirstInFirstOut | cnsi-manager/pkg/runtime/grpool/pool.go:97-125 | in every state that any schedule reaches, the held job followed by the jobs in the channel is a suffix of the jobs queued so far |
| PoolOrder.OneWorkerInOrder | cnsi-manager/pkg/runtime/grpool/pool.go:97-188 | with one worker, at every point of every schedule, the jobs executed, reported and finished are prefixes of the jobs in the order in which they were queued |
| PoolOrder.OneWorkerJoinsInOrder | cnsi-manager/pkg/runtime/grpool/pool.go:94-188 | with one worker, a Wait that returns with as many jobs queued as planned yields the errors joined in the order in which their jobs were queued |
| PoolObject.GrPool.Plan | cnsi-manager/pkg/runtime/grpool/pool.go:142-149 | adds a positive job count to the counter and ignores any other |
| PoolObject.GrPool.Queue | cnsi-manager/pkg/runtime/grpool/pool.go:178-182 | appends a job to the bounded channel and drops a nil job |
| PoolObject.GrPool.HandleLastError | cnsi-manager/pkg/runtime/grpool/pool.go:151-163 | the object's accumulator becomes what Accumulate says, with the rest of the pool unchanged |
| PoolObject.GrPool.Step | cnsi-manager/pkg/runtime/grpool/pool.go:94-147 | the object takes exactly the step of the transition system |
| PoolObject.GrPool.Serve | cnsi-manager/pkg/runtime/grpool/pool.go:94-188 | whatever enabled steps the scheduler takes, a balanced client reaches its end with every queued job run exactly once and the accumulator joining all their errors, with one worker in the order of the queue |
| QuarantineSafety.CallKeepsGuard | cnsi-manager/pkg/policy/network/enforcer.go:60-227 | each single API call of Enforce or Revoke, however it ends and with a workload reference that names the namespace or is blank, keeps every pod that has both quarantine values under its namespace's policy |
| QuarantineSafety.QuarantinedPodsStayIsolated | cnsi-manager/pkg/policy/network/enforcer.go:60-227 | over every interleaving of the namespaces' jobs, call by call, with calls failing or losing their reply, jobs dying and pods coming and going, no quarantined pod is ever without its policy |
| QuarantineSafety.IsolatedFromTheStart | cnsi-inspector/pkg/image-scanner/controller.go:391-450 | the same for every run of the scan jobs from any cluster in which quarantined pods are isolated |
| QuarantineCollected.CollectedIsLocal | cnsi-inspector/pkg/assets/workload/workloadinfo_collector.go:96-189 | every workload that the collector yields for a namespace has its pods there, and a reference that names that namespace or is blank |
| QuarantineCollected.BlankIffBare | cnsi-inspector/pkg/assets/workload/workloadinfo_collector.go:138-146 | the reference is blank for exactly the pods without an owner |
| QuarantineCollected.ScansKeepIsolation | cnsi-inspector/pkg/image-scanner/controller.go:391-450 | whatever pods the scans list, with owners or without, and whatever fails on the way, quarantined pods stay isolated |
| QuarantineCollected.OwnerlessIsNeverQuarantined | cnsi-manager/pkg/policy/network/enforcer.go:60-68 | the scan of a collected pod without an owner that fails its inspection changes nothing |
| QuarantineSafety.OverlapBreaksIsolation | cnsi-manager/pkg/policy/network/enforcer.go:172-227 | a schedule of two overlapping jobs in one namespace that ends with a quarantined pod and no policy |
| QuarantineEffect.EnforceEffect | cnsi-manager/pkg/policy/network/enforcer.go:60-102 | a successful Enforce leaves the policy in place and exactly the workload's pods marked, all else unchanged |
| QuarantineEffect.RevokeEffect | cnsi-manager/pkg/policy/network/enforcer.go:105-143 | a successful Revoke unmarks exactly the workload's pods and deletes the policy exactly if no quarantined pod is left |
| QuarantineEffect.RevokeLeavesPolicyIffNeeded | cnsi-manager/pkg/policy/network/enforcer.go:105-143 | after a successful Revoke the policy exists if and only if some pod of the namespace is still quarantined; with a blank reference it is as it was |
| QuarantineEffect.RevokeUndoesEnforce | cnsi-manager/pkg/policy/network/enforcer.go:60-143 | from a namespace whose policy exists exactly if needed, Enforce then Revoke restores the whole cluster if and only if no pod of the workload carried a quarantine key before |
| QuarantineEffect.VerdictTakesEffect | cnsi-inspector/pkg/image-scanner/controller.go:461-508 | a workload that fails its inspection ends with all pods marked; one that passes ends with all unmarked if and only if they were all marked or all unmarked before |
| QuarantineEffect.OtherPodsUntouched | cnsi-manager/pkg/policy/network/enforcer.go:60-143 | no call of a workload's Enforce or Revoke changes the labels of a pod outside it, even when it breaks off |
| QuarantineEffect.BarePodsAreNeverQuarantined | cnsi-manager/pkg/policy/network/enforcer.go:60-68 | with a blank reference, Enforce fails at its first call: the scan of a failed workload changes nothing and ends without an error only if its pods were marked before |
| QuarantineLabels.EnforceIsolates | cnsi-manager/pkg/policy/network/enforcer.go:60-102 | after a successful Enforce the policy is there, every pod of the workload that carried no other value under "goharbor.io/controller" or "goharbor.io/inspection" is selected by it ("CNSI" and "risk"), and all other labels are as they were |
| QuarantineLabels.RevokeReleases | cnsi-manager/pkg/policy/network/enforcer.go:105-143 | a successful Revoke takes both keys from every pod of the workload and leaves its other labels |
| QuarantineLabels.FailedIsIsolated | cnsi-inspector/pkg/image-scanner/controller.go:461-484 | a scan that ends without an error, of a workload that failed its inspection: with both keys on all its pods before it changes nothing; otherwise the policy is there at the end and selects exactly those of its pods that had no foreign value under a key, all other labels unchanged |
| QuarantineLabels.UnmarkedIsIsolated | cnsi-inspector/pkg/image-scanner/controller.go:461-484 | a failing workload none of whose pods carried a key ends with each of them selected by the policy of its namespace, which is there |
| QuarantineLabels.ListFinds | cnsi-manager/pkg/policy/network/enforcer.go:197-227 | the List before the deletion of the policy finds a pod with both values in the namespace, and in all namespaces for a blank one |
| QuarantineObject.Client.HasBeenEnforced | cnsi-manager/pkg/policy/network/enforcer.go:146-170 | the loop over the pods makes the calls of the protocol and answers whether all pods have both keys |
| QuarantineObject.Client.Enforce | cnsi-manager/pkg/policy/network/enforcer.go:60-102 | the loop over the pods makes exactly the calls of the protocol |
| QuarantineObject.Client.Revoke | cnsi-manager/pkg/policy/network/enforcer.go:105-143 | the loop over the pods and removeNetworkPolicy make exactly the calls of the protocol |
| QuarantineObject.Client.EnsureNetworkPolicy | cnsi-manager/pkg/policy/network/enforcer.go:172-194 | makes the Get and Create calls of the protocol |
| QuarantineObject.Client.RemoveNetworkPolicy | cnsi-manager/pkg/policy/network/enforcer.go:197-227 | makes the List, Get and Delete calls of the protocol |
| QuarantineObject.Client.Act | cnsi-inspector/pkg/image-scanner/controller.go:461-508 | the action of one verdict makes the calls of the protocol and keeps quarantined pods isolated |
| ScanJobSafety.KeysDiffer | cnsi-scanner-trivy/pkg/persistence/redis/store.go:135-137 | records of different jobs have different keys |
| ScanJobSafety.EventIsLocal | cnsi-scanner-trivy/pkg/persistence/redis/store.go:28-133 | an event of one job changes no other job and no other job's record |
| ScanJobSafety.RecordsMoveForward | cnsi-scanner-trivy/pkg/persistence/redis/store.go:28-133 | in every interleaving of enqueuers and workers, with any call failing or losing its reply, a record moves Queued to Pending to Finished or Failed, or Queued to Failed; the one other move is Finished to Failed; a finished record holds the report of its own scan and no error |
| ScanJobSafety.RecordNeverGoesBack | cnsi-scanner-trivy/pkg/persistence/redis/store.go:102-133 | whatever else fails or loses its reply, for this job or others: as long as no reply to the job's own last write is lost, its record never moves backwards and a finished one stays |
| ScanJobSafety.FinishedSetReached | cnsi-scanner-trivy/pkg/scan/controller.go:34-84 | a concrete run in which a record is about to be marked finished, its worker's report saved |
| ScanJobSafety.LostReplySpoils | cnsi-scanner-trivy/pkg/scan/controller.go:34-84 | in every such state, a lost reply to that write is followed by marking the finished record failed |
| ScanJobSafety.FinishedCanFail | cnsi-scanner-trivy/pkg/scan/controller.go:34-84 | a run from the start, for every job and report, that marks a finished record with its report failed |
| ScanJobSafety.FinishedCanFailIff | cnsi-scanner-trivy/pkg/scan/controller.go:34-84 | a run leaves a finished record that can still be marked failed if and only if it contains a lost reply to the job's last write and the worker has not ended since |
| ScanJobSafety.EndsTerminalIffFound | cnsi-scanner-trivy/pkg/scan/controller.go:34-84 | in every interleaving in which no call of the job itself fails, its ended worker has left a terminal record if and only if its last read found the record |
| ScanJobSafety.DeadJobStaysQueued | cnsi-scanner-trivy/pkg/queue/enqueuer.go:37-58 | a job whose worker died on a missing record stays Queued for ever once its record is created |
| ScanJobSafety.DeadJobReached | cnsi-scanner-trivy/pkg/queue/enqueuer.go:37-58 | a run from the start in which the worker reads twice before the record is created: it is dead and the record Queued |
| ScanJobSafety.FailureIsNamed | cnsi-scanner-trivy/pkg/scan/controller.go:34-84 | which text a failing step hands on: the prefix of the failed operation with the error of the store, of the image reference or of trivy, or the text of the nil dereference |
| ScanJobSafety.FailedHasReason | cnsi-scanner-trivy/pkg/scan/controller.go:34-84 | in every run from the start, the error of a failed record is the text of a step of its own job that did fail |
| ScanJobSafety.FailureIsRecorded | cnsi-scanner-trivy/pkg/scan/controller.go:34-44 | two calls that go well put exactly that text into the failed record |
| ScanJobSafety.UndecodableStaysQueued | cnsi-scanner-trivy/pkg/queue/worker.go:69-88 | a request that cannot be decoded ends its worker, and its record stays Queued for ever |
| ScanJobObject.RedisStore.Create | cnsi-scanner-trivy/pkg/persistence/redis/store.go:28-52 | SET NX: an existing record is kept without an error |
| ScanJobObject.RedisStore.Update | cnsi-scanner-trivy/pkg/persistence/redis/store.go:54-78 | SET XX: a missing record stays missing without an error |
| ScanJobObject.RedisStore.Get | cnsi-scanner-trivy/pkg/persistence/redis/store.go:80-100 | an error, no record, or the record under the job's key |
| ScanJobObject.RedisStore.UpdateStatus | cnsi-scanner-trivy/pkg/persistence/redis/store.go:102-119 | get-modify-set of status and error makes the steps of the protocol, with the nil dereference for a missing record |
| ScanJobObject.RedisStore.UpdateReport | cnsi-scanner-trivy/pkg/persistence/redis/store.go:121-133 | get-modify-set of the report makes the steps of the protocol |
| ScanJobObject.RedisStore.Attempt | cnsi-scanner-trivy/pkg/scan/controller.go:46-84 | scan makes the steps of the protocol and turns a panic into its error |
| ScanJobObject.RedisStore.Scan | cnsi-scanner-trivy/pkg/scan/controller.go:34-44 | Scan records the error of scan, and a panic on the way escapes |
| ScanJobObject.RedisStore.ScanArtifact | cnsi-scanner-trivy/pkg/queue/worker.go:69-88 | the queue handler makes the steps of the protocol from decoding to the end |
| ScanJobObject.RedisStore.Enqueue | cnsi-scanner-trivy/pkg/queue/enqueuer.go:37-58 | the job is published before its record is created, and not created when publishing fails |
| Substitution.MakeSubstitutions | cnsi-inspector/pkg/kube-bench/util.go:369-386 | the loop over the map in any iteration order yields the text and the reported values of the one-by-one substitution in that order |
| SubstitutionResult.SameInEveryOrderIffClear | cnsi-inspector/pkg/kube-bench/util.go:369-386 | for names and values without dollars, none of the names a prefix of another: every iteration order yields the simultaneous substitution of each name by its value, in single quotes if it has several words, if and only if no replacement together with the text before it completes another variable |
| SubstitutionResult.NoFragmentsSuffice | cnsi-inspector/pkg/kube-bench/util.go:369-386 | it does when nothing between a dollar and the next one is a proper beginning of a variable |
| SubstitutionResult.ReportsUsedValues | cnsi-inspector/pkg/kube-bench/util.go:369-386 | under the same condition the reported values are those of the names that occur in the text |
| SubstitutionResult.PrefixNamesDependOnOrder | cnsi-inspector/pkg/kube-bench/util.go:369-386 | with one name a proper prefix of another, the two orders give different texts for the longer variable |
| SubstitutionResult.OneVariableReplaced | cnsi-inspector/pkg/kube-bench/util.go:253-260 | a variable that occurs once in the text is replaced by its value between single quotes if and only if that has a space between two other characters, by the bare value otherwise, and not at all without a value |
| SubstitutionExact.Compose | cnsi-inspector/pkg/kube-bench/util.go:253-260 | replacing one more variable in a simultaneously replaced text is replacing one variable more simultaneously, if there is no clash |
| SubstitutionOrder.ReplaceIsSimultaneous | cnsi-inspector/pkg/kube-bench/util.go:253-260 | replacing all occurrences of one variable is the simultaneous substitution of that variable |
| Artifact.ParseArtifactIDFrom | cnsi-manager/pkg/data/core/types.go:31-73 | the reassignments of the parser, slice panics included, yield the parsed identity |
| ArtifactResult.RoundTripIffInDomain | cnsi-manager/pkg/data/core/types.go:31-143 | for every reference registry/namespace/path:tag and image ID with a digest, the accessors return exactly the parts, the path percent-encoded, if and only if the registry has a dot, no part is taken for a digest, and a docker.io path is one segment that needs no encoding |
| ArtifactResult.DigestFormAgreesIff | cnsi-manager/pkg/data/core/types.go:31-73 | the digest form of a repository is parsed to the same identity as its tag form if and only if it names its registry and holds no colon |
| ArtifactResult.UntaggedKeptIff | cnsi-manager/pkg/data/core/types.go:59-66 | a reference without a tag keeps its repository if and only if it holds no colon: a registry port is taken for the tag |
| ArtifactResult.SpellingsAgree | cnsi-manager/pkg/data/core/types.go:44-143 | name:tag, library/name:tag and docker.io/library/name:tag have the same registry, namespace, repository, digest and tag though the identity's text differs |
| ArtifactRoundTrip.UnescapeEscape | cnsi-manager/pkg/data/core/types.go:89-104 | percent-encoding (section 2.1 of RFC 3986) is undone by decoding, for any bytes |
| ArtifactRoundTrip.FrontOf | cnsi-manager/pkg/data/core/types.go:106-139 | registry and namespace of an identity with both |
| ArtifactRoundTrip.RepositoryOf | cnsi-manager/pkg/data/core/types.go:89-104 | the repository is the encoded path, but only its last segment, unencoded, for a registry with docker.io in it |
| ArtifactRoundTrip.DigestOf | cnsi-manager/pkg/data/core/types.go:80-87 | the digest of an identity is the text from its last "@sha256:" on |
| ArtifactRoundTrip.EscapeByByte | cnsi-manager/pkg/data/core/types.go:89-104 | letters, digits and - _ . ~ $ & + = : @ stand for themselves, every other byte becomes a percent sign and its two upper-case hexadecimal digits |
| ArtifactRoundTrip.EscapeHasNoSlash | cnsi-manager/pkg/data/core/types.go:89-104 | an encoded path is one segment: it has no slash |
| ArtifactResult.TwoSegmentsEscaped | cnsi-manager/pkg/data/core/types.go:89-104 | the repository of registry/namespace/a/b is the encoding of a, then %2F, then the encoding of b |
| ArtifactResult.NoDigestNoIdentity | cnsi-manager/pkg/data/core/types.go:66-72 | an image ID without a digest leaves an empty identity with the tag alone |
| ArtifactResult.BareDigest | cnsi-manager/pkg/data/core/types.go:35-42 | an image that is only a digest is identified by its image ID |
| ArtifactResult.PanicsIffAtBeyond | cnsi-manager/pkg/data/core/types.go:55-58 | the parser panics if and only if the last "@" comes after the last "sha256:", and after the prefix that is added for an omitted registry |
| BenchmarkVersion.MapToBenchmarkVersion | cnsi-inspector/pkg/kube-bench/common.go:209-226 | the loop terminates and returns the mapping of the first mapped version on the way down, or the error |
| BenchmarkVersion.GetOcpValidVersion | cnsi-inspector/pkg/kube-bench/util.go:510-524 | the loop terminates and returns the first accepted version on the way down, or the error |
| BenchmarkVersion.CountsDown | cnsi-inspector/pkg/kube-bench/util.go:149-164 | decrementing lowers the parsed minor number, whatever the version looks like |
| BenchmarkVersion.AtoiItoa | cnsi-inspector/pkg/kube-bench/util.go:149-164 | printing and parsing a number are inverse |
| BenchmarkResult.SearchFindsGreatest | cnsi-inspector/pkg/kube-bench/common.go:209-226 | for every version with a decimal minor number, further parts or none behind it, the benchmark is that of the greatest mapped minor number from the given one down to 1, for a plain Kubernetes 1 from 18 on down to 18; without one it fails, unless the search reaches the empty version and that is mapped |
| BenchmarkResult.OcpAccepts | cnsi-inspector/pkg/kube-bench/util.go:510-524 | 4.m is taken for 4.1 from m = 1 on, 3.m for 3.10 from m = 10 on, and nothing else is accepted, no version with a patch level either |
| BenchmarkResult.OddVersions | cnsi-inspector/pkg/kube-bench/common.go:209-226 | the other versions, without a minor number, are looked up as they are and then as the empty version |
| SecurityCache.Client.Read | cnsi-manager/pkg/data/cache/redis/client.go:24-64 | all stores of the metadata asked for, or an error at the first that is missing, expired, unsupported or carries an error |
| SecurityCache.Client.Write | cnsi-manager/pkg/data/cache/redis/client.go:67-98 | one transaction of SETs with expiry, applied as a whole or not at all |
| SecurityCache.ReadThrough | cnsi-manager/pkg/data/providers/harbor/adapter.go:77-162 | the cache first, then the provider, whose answer is written to the cache; without a cache the provider alone |
| SecurityCacheResult.BoundedStaleness | cnsi-manager/pkg/data/cache/redis/client.go:24-98 | over every run with readers side by side and calls failing, each store served from the cache carries no error and is what the provider answered for that artifact, in an answer written less than the living time ago |
| SecurityCacheResult.AnswersAreRecent | cnsi-manager/pkg/data/providers/harbor/adapter.go:77-162 | a served answer is younger than the living time plus the longest delay between a fetch and its write |
| SecurityCacheResult.OldestIsServed | cnsi-manager/pkg/data/providers/harbor/adapter.go:77-162 | a run that serves an answer one second younger than that |
| SecurityCacheResult.AgeBoundIff | cnsi-manager/pkg/data/providers/harbor/adapter.go:77-162 | with delays up to d, everything served in any run is younger than L if and only if the living time plus d is at most L, or nothing is cached because the living time is not positive |
| SecurityCacheResult.ServedUntilExpiry | cnsi-manager/pkg/data/cache/redis/client.go:24-98 | what was written without an error is served until it expires, and what was written with one never is |
| SecurityCacheResult.KeysDiffer | cnsi-manager/pkg/data/cache/redis/client.go:100-102 | keys of equal metadata agree exactly for the same artifact |
| SecurityCacheResult.EqualIsEquality | cnsi-manager/pkg/data/core/types.go:156-164 | Metadata.Equal is equality for kinds and versions without a colon |
| SecurityCacheResult.ConfusableIffColon | cnsi-manager/pkg/data/core/types.go:156-164 | metadata is taken for different metadata by Equal if and only if one of its fields holds a colon |
| ImageScan.Inspect | cnsi-inspector/pkg/image-scanner/controller.go:254-389 | the verdict: passed exactly if every container's data could be read and violates no baseline, with the list of all failures in order; no assessment when a scanner report cannot be decoded |
| ImageScan.CheckBaselines | cnsi-inspector/pkg/image-scanner/controller.go:361-386 | the violated baselines of one container in order, the first matching store deciding each |
| ImageScan.FailuresLocated | cnsi-inspector/pkg/image-scanner/controller.go:254-389 | the failures are told container by container and baseline by baseline, each once and of the container it is about: unread data exactly where the security data could not be read, a violation exactly for each baseline about vulnerabilities that the first data exclude |
| ImageScan.PassesIffHarborSaysSo | cnsi-inspector/pkg/image-scanner/controller.go:361-386 | a container passes if and only if Harbor knows the artifact, all baselines are about vulnerabilities, and the overview exists with a severity that no baseline excludes |
| ImageScan.CachedVerdictIsHarbors | cnsi-manager/pkg/data/providers/harbor/adapter.go:77-162 | over every run of readers: a verdict from the cache is the one that an answer Harbor gave for this artifact calls for, an answer written less than the living time ago |
| ImageScan.Judge | cnsi-inspector/pkg/image-scanner/controller.go:435-444 | the assessment, and the actions that follow the verdict; without an assessment and with actions configured the job panics |
| ImageScan.ScanNamespace | cnsi-inspector/pkg/image-scanner/controller.go:425-447 | the job of a namespace assesses its workloads and acts on them in order, and panics if and only if actions are configured and some scanner report cannot be decoded |
| Registries.Adapter.ListAllRegistries | cnsi-manager/pkg/data/providers/harbor/adapter.go:463-486 | the paged listing is exactly the server's list, in max(1, ceil(n/100)) requests |
| Registries.IndexByName | cnsi-manager/pkg/data/providers/harbor/adapter.go:384-393 | the map by name holds the last listed registry of each name |
| Registries.SplitSets | cnsi-manager/pkg/data/providers/harbor/adapter.go:394-429 | the two sets are the requested registries that are not listed and those that are, with their ids, in order |
| Registries.Adapter.RegisterKnownRegistries | cnsi-manager/pkg/data/providers/harbor/adapter.go:384-461 | the calls made are those of the plan for the listed registries, up to the first failure; nothing is changed before all credentials are read |
| RegistriesResult.SuccessReachesTarget | cnsi-manager/pkg/data/providers/harbor/adapter.go:431-461 | a run that reports success leaves the server exactly at the target |
| RegistriesResult.SucceedsIffNewNamesDistinct | cnsi-manager/pkg/data/providers/harbor/adapter.go:384-461 | with every call answered the run succeeds if and only if no name that is not registered is asked for twice |
| RegistriesConverge.RunKeepsTarget | cnsi-manager/pkg/data/providers/harbor/adapter.go:384-461 | a run that breaks off anywhere changes nothing that a later run would not bring to the same place |
| RegistriesConverge.RetriesConverge | cnsi-manager/pkg/data/providers/harbor/adapter.go:384-461 | after any number of runs with any outcomes, the next run that reports success ends where one undisturbed run would have |
| RegistriesConverge.TargetAsAsked | cnsi-manager/pkg/data/providers/harbor/adapter.go:384-461 | the target has exactly one registry for each name asked for, with the URL, TLS flag and credential asked for last, and all that was asked for where it is new |
| RegistriesConverge.TargetKeepsOthers | cnsi-manager/pkg/data/providers/harbor/adapter.go:384-461 | all other registries are unchanged; ids, names and types of listed ones are kept, and their credentials when none is asked for |
| RegistriesConverge.KnownAsAsked | cnsi-manager/pkg/data/providers/harbor/adapter.go:394-429 | each known registry has the requested endpoint and TLS flag, and its provider's type where it is new |
| RegistriesConverge.SecondRunCreatesNothing | cnsi-manager/pkg/data/providers/harbor/adapter.go:384-461 | at the target a run only updates, and its success leaves the server unchanged |
| CronJobSafety.AtMostOneByLabels | cnsi-manager/pkg/controllers/inspectionpolicy_controller.go:704-743 | in every interleaving with calls failing or losing their reply and anything deleted, a policy whose reads are fresh never has two CronJobs of a type that is looked up by labels |
| CronJobSafety.AtMostOneCronJob | cnsi-manager/pkg/controllers/inspectionpolicy_controller.go:433-522 | with fresh reads for a policy, and while nobody deletes a job it refers to, it has at most one CronJob of each type, and a set InspectionExecutor names an existing CronJob of that policy; other policies do not matter |
| CronJobSafety.ReferenceIsForever | cnsi-manager/pkg/controllers/inspectionpolicy_controller.go:490-503 | a set InspectionExecutor never changes again |
| CronJobSafety.MisledForever | cnsi-manager/pkg/controllers/inspectionpolicy_controller.go:433-503 | with fresh reads, a policy whose InspectionExecutor names a job of another type and that has no Inspection job never gets one |
| CronJobSafety.StepKeepsKind | cnsi-manager/pkg/controllers/inspectionpolicy_controller.go:433-505 | with fresh reads each step of a reconcile creates a job only where there is none, unless it goes by a reference whose job is missing |
| CronJobResult.FaultlessReconcileIff | cnsi-manager/pkg/controllers/inspectionpolicy_controller.go:158-188 | a complete reconcile without failures and with fresh reads, among any events of other policies, leaves a CronJob of each type with an image, except for Inspection if and only if the reference named a job of another type |
| CronJobResult.SoundFromTheStart | cnsi-manager/pkg/controllers/inspectionpolicy_controller.go:433-522 | every run from the start with fresh reads for the policy, sparing the jobs it refers to, leads to a state to which these results apply |
| CronJobResult.LateImageMisleads | cnsi-manager/pkg/controllers/inspectionpolicy_controller.go:490-503 | a policy that first had the risk image alone gets into that state when the inspection image is added |
| CronJobResult.FirstReconcile | cnsi-manager/pkg/controllers/inspectionpolicy_controller.go:433-522 | the first reconcile of a policy with one image sets InspectionExecutor to the job of that type |
| CronJobResult.DeletionMultiplies | cnsi-manager/pkg/controllers/inspectionpolicy_controller.go:714-727 | once the referenced job is deleted, n further reconciles add n Inspection jobs |
| CronJobResult.DeletionReached | cnsi-manager/pkg/controllers/inspectionpolicy_controller.go:714-727 | one reconcile and one deletion lead there |
| CronJobResult.StaleListDuplicates | cnsi-manager/pkg/controllers/inspectionpolicy_controller.go:728-741 | with a list from before the first reconcile, the second one creates a second CronJob of the type |
| CronJobDeletion.StaysAtMostOneIff | cnsi-manager/pkg/controllers/inspectionpolicy_controller.go:704-743 | without a reconcile under way: a policy has at most one Inspection job in every continuation without a deletion if and only if it has at most one now and InspectionExecutor is unset or names an existing job |
| CronJobStatus.ShownIff | cnsi-manager/pkg/controllers/inspectionpolicy_controller.go:476-522 | a complete reconcile without failures that finds the jobs of its policy, among any events of other policies, leaves a status that is Suspended or Standby as the policy is suspended or not if and only if it was so before, it was empty, another part asked for an update, or the suspend flag of one of the jobs differs from the policy; otherwise it stays |
| CronJobStatus.JobsNeverChange | cnsi-manager/pkg/controllers/inspectionpolicy_controller.go:476-487 | no run ever changes a CronJob that nobody deletes: suspending or resuming a policy does not reach its jobs |
| CronJobStatus.ResumeIsNotShown | cnsi-manager/pkg/controllers/inspectionpolicy_controller.go:476-522 | for every policy with one image: suspended and resumed, each with a complete reconcile, it shows Suspended while neither it nor its CronJob is |
| CronJobObject.Reconciler.CheckCronJob | cnsi-manager/pkg/controllers/inspectionpolicy_controller.go:704-743 | the lookup by reference or by labels |
| CronJobObject.Reconciler.CronjobForInspection | cnsi-manager/pkg/controllers/inspectionpolicy_controller.go:433-505 | the calls for one type make exactly the steps of the protocol |
| CronJobObject.Reconciler.UpdatePolicyStatus | cnsi-manager/pkg/controllers/inspectionpolicy_controller.go:507-522 | the status update makes the step of the protocol, and only when needed or empty |
| CronJobObject.Reconciler.Reconcile | cnsi-manager/pkg/controllers/inspectionpolicy_controller.go:158-188 | a reconcile makes exactly the steps of the protocol for the three types in order and then the status, whatever fails |
| Workloads.DefaultCollector.CollectWorkloads | cnsi-inspector/pkg/assets/workload/workloadinfo_collector.go:96-119 | succeeds exactly if every pod's owner is found, and returns the values of the index, each once, in some order |
| Workloads.DefaultCollector.ProcessPod | cnsi-inspector/pkg/assets/workload/workloadinfo_collector.go:121-159 | adds the pod to the workload of its owner, or to its own |
| Workloads.DefaultCollector.GetOwner | cnsi-inspector/pkg/assets/workload/workloadinfo_collector.go:161-189 | the owner of the first ReplicaSet when it has one, else the first owner that is a workload |
| Workloads.ExtractContainers | cnsi-inspector/pkg/assets/workload/workloadinfo_collector.go:200-251 | the loops list the started containers and then the declared ones without a status |
| WorkloadsResult.WorkloadsPartitionPods | cnsi-inspector/pkg/assets/workload/workloadinfo_collector.go:96-159 | the workloads together hold each listed pod as often as it is listed, and each holds the pods of its key in listed order |
| WorkloadsResult.ShareIffSameOwner | cnsi-inspector/pkg/assets/workload/workloadinfo_collector.go:121-159 | two pods have the same workload if and only if they resolve to the same owner, or are the same pod without one |
| WorkloadsResult.SameKeyIff | cnsi-inspector/pkg/assets/workload/workloadinfo_collector.go:122-124 | the index key tells kinds, names and UIDs apart, kinds and names having no colon |
| WorkloadsResult.WorkloadIsOwner | cnsi-inspector/pkg/assets/workload/workloadinfo_collector.go:138-146 | a workload carries kind, name and UID of the owner of every pod in it and the namespace that was listed, and none of them for pods without an owner |
| WorkloadsResult.ReplicasShareIffSameOwner | cnsi-inspector/pkg/assets/workload/workloadinfo_collector.go:161-189 | pods of any two ReplicaSets owned by workloads are in one workload, that owner, if and only if the owner is the same |
| WorkloadOwners.DirectOwner | cnsi-inspector/pkg/assets/workload/workloadinfo_collector.go:161-179 | a pod that has no ReplicaSet among its owners, or one whose owners are no workloads: the owner found has kind, API version, name and UID of the first owner whose kind is Deployment, ReplicaSet, StatefulSet, DaemonSet, CronJob or Job, and there is none if and only if no owner has such a kind |
| WorkloadOwners.LiftedOwner | cnsi-inspector/pkg/assets/workload/workloadinfo_collector.go:161-187 | a pod with a ReplicaSet: the owner found is the first owner of its first ReplicaSet with such a kind |
| WorkloadOwners.NotFoundIff | cnsi-inspector/pkg/assets/workload/workloadinfo_collector.go:161-187 | the owner cannot be determined if and only if the first ReplicaSet among the owners does not exist |
| WorkloadOwners.DirectOwnersShareIff | cnsi-inspector/pkg/assets/workload/workloadinfo_collector.go:121-179 | pods owned directly by workloads are in one workload if and only if these first owners have the same kind, name and UID |
| WorkloadOwners.PodsAreThemselves | cnsi-inspector/pkg/assets/workload/workloadinfo_collector.go:121-159 | a collected pod carries its own namespace, name and UID, and all its containers |
| WorkloadsResult.DeclaredOnceIffStatusesFit | cnsi-inspector/pkg/assets/workload/workloadinfo_collector.go:200-251 | a pod's containers are exactly the declared ones, each once, if and only if its statuses name declared containers without repetition |
| WorkloadsResult.ContainersTellTheTruth | cnsi-inspector/pkg/assets/workload/workloadinfo_collector.go:200-251 | each listed container has all data of its status, or, without one, name and image as declared and no ids |
| WorkloadsResult.ContainersInOrder | cnsi-inspector/pkg/assets/workload/workloadinfo_collector.go:200-251 | the containers with a status come first and the init containers with one next, both in the order of the statuses, then those that are declared only, init containers last |
| Workloads.DeclaredKeepOrder | cnsi-inspector/pkg/assets/workload/workloadinfo_collector.go:230-251 | declared containers are taken in the order of their declaration |
| Lsof.Parse | cnsi-inspector/pkg/pkgload-scanner/lsof.go:52-77 | the loop over the output with its current index yields the records, or panics |
| Lsof.PanicsIffOrphan | cnsi-inspector/pkg/pkgload-scanner/lsof.go:52-77 | it panics if and only if a c, u or L line, or an n line with ".so", comes before every p line |
| Lsof.PrintedIsReadBack | cnsi-inspector/pkg/pkgload-scanner/lsof.go:52-77 | the printed output of any processes, with lines of other fields anywhere, is read back as these processes in order, each with its latest fields and its ".so" names cut at the first space |
| Lsof.KeptMayLoseSuffix | cnsi-inspector/pkg/pkgload-scanner/lsof.go:70-75 | a name with ".so" only after a space is kept and loses it |
| PkgLoad.CollectDetails | cnsi-inspector/pkg/pkgload-scanner/controller.go:184-203 | the map of vulnerable packages by key |
| PkgLoad.JoinRecord | cnsi-inspector/pkg/pkgload-scanner/controller.go:217-246 | for any order of the map iterations, one line for each detail of which the process has a file open |
| PkgLoad.JoinContainer | cnsi-inspector/pkg/pkgload-scanner/controller.go:217-246 | the lines of all processes of a container in order |
| PkgLoad.ByContainer | cnsi-inspector/pkg/pkgload-scanner/controller.go:121-124 | the records of each container in order |
| PkgLoadResult.ExactIffKeysKept | cnsi-inspector/pkg/pkgload-scanner/controller.go:184-246 | the report of a process has each loaded pair of CVE and package exactly once and no other pair if and only if, for every loaded pair, the last listed entry of a scanned package with its key is of that pair |
| PkgLoadResult.InjectiveSuffices | cnsi-inspector/pkg/pkgload-scanner/controller.go:274-276 | which holds when the key is injective on the pairs of scanned packages |
| PkgLoadResult.CollisionDrops | cnsi-inspector/pkg/pkgload-scanner/controller.go:274-276 | two loaded pairs of one key, of which the report drops the first |
| PkgLoadResult.LinesTellTheTruth | cnsi-inspector/pkg/pkgload-scanner/controller.go:225-244 | each line gives version and severity of the last vulnerability listed for its pair, and the process has a file of the package open |
| PkgLoadResult.FirstIs | cnsi-inspector/pkg/pkgload-scanner/controller.go:315-327 | of several scanned packages of one name the first one listed is taken |
| PkgLoadResult.ConcatKeepsOrder | cnsi-inspector/pkg/pkgload-scanner/controller.go:217-246 | the lines of the processes follow each other in the order of the processes |
| PkgLoadResult.OfKeepsOrder | cnsi-inspector/pkg/pkgload-scanner/controller.go:121-124 | the records of a container are those with its id, in the order in which lsof lists them |
| Retry.Retry.Run | lib/retry/retry.go:73-99 | the attempts loop yields outcome, calls, delays and remaining delay function as specified |
| Retry.Retry.SetNextRetry | lib/retry/retry.go:102-108 | the next delay is the given one, and the old delay function comes after it |
| RetryResult.EndsIff | lib/retry/retry.go:73-99 | the run ends with success, or with the error e, if and only if some k-th call answers so, all calls before it ask for a retry undisturbed and the allowed attempts are not used up; with the context's end exactly at the first disturbed retry before the last attempt; and gives up exactly when the last allowed call asks for a retry |
| RetryResult.StopsOnce | lib/retry/retry.go:73-99 | every run stops at exactly one call, with the number of calls it took, or has not stopped when the answers are over |
| RetryResult.GivesUpIff | lib/retry/retry.go:73-99 | with n attempts allowed the function is called at most n times, and the run gives up if and only if n calls ask for a retry undisturbed, after n - 1 delays |
| RetryResult.CanGiveUpIff | lib/retry/retry.go:73-99 | some run gives up if and only if at least one attempt is allowed |
| RetryResult.TotalDelay | lib/retry/retry.go:47-58 | giving up after n attempts with growing delays, of which none but the last sets another, has scheduled n - 1 delays that add up to (n-1)*base + inc*(n-1)*(n-2)/2 |
| RetryResult.DelaysAreLastSet | lib/retry/retry.go:73-108 | for every retried function, whatever delays it sets and when: each delay is the last set of those not used yet, and the strategy's when none is left; what is left at the end is in force for the next run |
| RetryResult.LastSetFirstUsed | lib/retry/retry.go:102-108 | so delays set in advance are used last in, first out, one for each failed attempt, before the original delay function returns |
| RetryResult.GivingUpLosesOne | lib/retry/retry.go:86-92 | for every retried function: giving up after n attempts takes n delays off those that were set and schedules n - 1 |

## Left out

- Pool after Close or cancellation: queued jobs are never marked done there, and the select may drop an error. `availableWorkers` and `MaxWorkers` only set or report a number.
- PoolObject.GrPool.Serve: takes one step at a time under an arbitrary scheduler; Go's memory model within a step is not modelled.
- RetryResult.TotalDelay: counts the delays that are scheduled, not the time that passes; the timer starts expired, so the first wait may end at once, and overflow of 64-bit durations is not modelled.
- Retry.Retry.Run: the retried function is a script of answers, and whether the context ends a wait is part of the script.
- CronJobObject.Reconciler.Reconcile: starts where the namespace, the settings and the access rights are in place; the DaemonSets of kube-bench and of the package scanner are left out.
- CronJobObject.Reconciler.CronjobForInspection: the annotation that `changed` compares is reduced to the suspend flag, the one part of the specification that has an effect.
- Registries.Adapter.ListAllRegistries: assumes pages of one unchanging list; a list that changes between requests may be returned torn.
- Registries.Adapter.RegisterKnownRegistries: nobody else changes Harbor's registries meanwhile, and Harbor numbers new ones consecutively.
- Workloads.DefaultCollector.CollectWorkloads: the lookups of one listing see one state of the ReplicaSets; left out are the selectors of the listing; `matchExpressions` have no effect in the source.
- ImageScan.Inspect: severities are ordered by an abstract code; the VAC assessment and the request to the scanner service have no influence on the verdict and are left out.
- Lsof.Parse: the lookup of the container of each process afterwards is not part of it.
- PkgLoad.JoinContainer: the loops over namespaces, pods of this node and ready containers around it, and what is skipped there, are left out.
- ScanJobObject.RedisStore.Attempt: the image reference, the Trivy run and the transformation of its report are one step that yields a report, the error of the reference or the error of trivy.
- SecurityCache.Client.Read: JSON text is an abstract codec with the round trip that the source's types have.
- Artifact.ParseArtifactIDFrom: invalid UTF-8 and non-ASCII white space in `strings` and `strconv` are not modelled.
- CVSS vectors, the Harbor client, the Kubernetes client, regular expressions and the portal: libraries, generated code and user interface.
- Exporters, cooldown timers, configuration readers and conditions of settings: properties too easy to add anything.
- Replication policies and project creation of the Harbor adapter: plain sequences of calls.
