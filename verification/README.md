# Verified model of datacol

datacol deploys apps to Kubernetes on AWS, GCP or a local cluster.  Its API server keeps apps, builds
and releases in a store, speaks protocol buffers with the command line client, and edits the objects of
one namespace: a deployment, a service and perhaps a cron job for each process of an app, and one
ingress that all apps share.

This project states what that code does and proves properties of it.  Code that changes things step by
step is a method or a class proved against a specification function; the properties are lemmas about
those functions, for all inputs, all map orders and all runs.

Run `dafny verify dfyconfig.toml` to check everything.

## Parts

**Wire codec** (`Varint`, `Wire`, `Codec`, `Decoders`, `Messages`, `Concatenation`, `RoundTrip`,
`Sizes`, `UnknownFields`, `MapEntries`, `WireMeaning`). A message is the list of its fields; `Encode`
and `Decode` say what the generated code writes and reads, including sign-extended integers, maps in an
arbitrary order, numbers that keep the bits read before a failure, and groups that are skipped
recursively. The classes App, Build, Process, Formation and EnvConfig are the generated types: filling
an array with a moving index, reading with another, proved against the two functions on every byte
string. `WireMeaning` says what the bytes mean without these functions, by the grammar of the format.

**Ingress and domains** (`GoSlices`, `Ingress`, `IngressMerge`, `Repeats`, `Domains`, `DomainProtocol`,
`MergeChecks`, `BadRuns`, `Controllers`). Slices are headers over a backing array. The removal loop of
the merge ranges over the old header while it removes from the live one; `Sweep` and `Panics` say what
comes of that for any rules, and the protocol of domain changes and releases is what keeps it harmless:
looking at the state before a first release is enough. `Controllers` is the server on top of both, with
the store of each provider.

**Cluster** (`Sidecar`, `Limits`, `Kube`, `Clusters`, `Deploys`, `ClusterRuns`, `Linking`, `Apps`,
`AppRuns`, `CallRuns`, `Isolation`, `Databases`, `Edits`, `Requests`, `Releases`). The deployer, limits,
restarts, the Cloud SQL proxy and deletions as updates of the objects of a namespace, and runs of the
calls that make them. What the API server assigns, whether pods get ready, the order of every listing
and of every map, and which texts parse as quantities or numbers are arbitrary. The last four modules
tell each call by what stands in the namespace afterwards, in terms of what was asked for.

**Streams and texts** (`LogPaging`, `Upload`, `Environments`, `Bindings`, `SecretStore`, `Strings`,
`ResourceLinks`, `Registry`, `Names`, `Waiting`).

## What the code does otherwise than intended

Each is a proved statement; the model follows the code.

- A map entry is read by position, where section "Maps" of the Protocol Buffers language guide has two
  fields in any order, either of which may be missing.  `EntriesReadRightIff` says exactly which orders of
  records are read as that grammar has it whatever they hold, and `EntryReadsRightIff` when an entry in any
  order is so by coincidence, as long as its first two records can be read as a text and a text or number.
  An empty entry takes its key from the bytes behind it (`EmptyEntryReadsBehind`, `EmptyEntryRightIff`).
- Two stale rules side by side: the merge passes over the second (`StaleRuleSurvives`).  A stale last
  rule behind another one: the merge panics (`StaleRulePanics`).  `MergeIffMergeable` says exactly when
  the merge does what it is meant to do.
- Three runs into that panic: an app takes the service of a deleted one (`ReusedServiceCrashes`); outside
  AWS, a first release fails after it has reached the ingress and so is not recorded
  (`UnrecordedReleaseCrashes`); and on GCP an app is created over itself (`OverwrittenAppCrashes`).  In
  each only the last call fails the condition `Legal`.  For the release of an app with domains this
  condition is exact (`LegalIff`); for an app without domains it is stricter than needed, and `PassesIff`
  has the exact condition for every step, which looks at each merge when it is made.
- With the local provider the first release of an app without domains publishes a rule for the empty host
  (`EmptyHostIff`), and a domain with a comma comes back as several (`CommaRepeatsDomain`).
- Two apps whose names overlap at a dash can have processes of one name, and then the release of one gives
  its image to the other (`NamesCollideIff`, `ReleaseReplacesIff`).
- Setting the limit of one resource type drops the others (`MergeKeepsOthersIff`).
- A release does not keep the parallelism of a cron job (`ReleaseRunsJobs`).
- Scaling an existing process closes its container port until the next release (`ScaleSets`).
- A process whose service would be named `cloudsql-proxy` and that is linked to a database loses its
  container to the proxy (`TakenByProxyIff`).
- The writing loop of an upload tests the last write instead of the sum.  With a writer that keeps the
  contract of `io.Writer`, such as the files of the server, this does no harm (`FirstWriteEnds`,
  `UploadSucceedsIff`); after a short write without an error, which breaks that contract, the loop would
  never return (`HangsUntilFailure`, `ShortWriteHangs`).
- A list without elements comes back from a secret as a list of one empty text (`EmptyListComesBack`).
- A poll in the middle of a line shows what there is of it, and the next one the line again
  (`LineShownTwice`, `PagesAreLogIff`).

## Model

| member | source | states |
|---|---|---|
| Varint.DecodeVarint | api/models/types.pb.go:1460-1473 | the reading loop yields the low bits of the varint, its end or its error on every byte string, for words of 32 and 64 bits |
| Varint.EncodeVarintTypes | api/models/types.pb.go:1141-1149 | the writing loop puts the base 128 varint into the array at the offset and touches nothing else |
| Varint.SovTypes | api/models/types.pb.go:1442-1451 | the counting loop returns the length of the varint, 1 to 10 |
| Varint.PutVarintWidth | api/models/types.pb.go:1442-1451 | a varint takes at most k bytes if and only if the value is below 128 to the power k |
| Varint.NegativeWidth | api/models/types.pb.go:953-957 | a negative number takes exactly ten bytes |
| Varint.ReadPut | api/models/types.pb.go:1141-1149 | reading a written varint gives the value and stops behind it |
| Codec.MarshalTextMap | api/models/types.pb.go:913-928 | a map of texts is written as one record for each entry in whatever order the map is walked |
| Codec.MarshalCountMap | api/models/types.pb.go:1022-1036 | the same for a map to int32, sign-extended to 64 bits |
| Decoders.SkipTypes | api/models/types.pb.go:3966-4064 | skipping returns the length of the next record or the error, recursively through groups, on every byte string |
| Decoders.TextMapField | api/models/types.pb.go:3039-3155 | on every byte string the first half of an entry becomes the key and the second, if the entry goes on, the value; the next record starts where the length of the entry says |
| Decoders.CountMapField | api/models/types.pb.go:3478-3583 | the same for entries to int32 |
| Messages.App.Size | api/models/types.pb.go:1150-1190 | the size is the length of every encoding of the message |
| Messages.App.MarshalTo | api/models/types.pb.go:545-617 | exactly the size is written, the bytes are the encoding, the rest of the buffer is untouched, no index is out of range |
| Messages.App.Marshal | api/models/types.pb.go:535-543 | the allocated buffer is filled exactly, and decoding it into an empty message gives each field at its number |
| Messages.App.Unmarshal | api/models/types.pb.go:1455-1736 | on every byte string the loop ends with the message and error of Decode |
| Messages.Build.MarshalTo | api/models/types.pb.go:629-676 | as for App, with bytes and int64 fields |
| Messages.Build.Unmarshal | api/models/types.pb.go:1737-1981 | as for App; a number keeps what was read before a failure |
| Messages.EnvConfig.MarshalTo | api/models/types.pb.go:907-930 | as for App, with a map field |
| Messages.EnvConfig.Unmarshal | api/models/types.pb.go:3011-3176 | as for App, with a map field |
| Messages.Process.MarshalTo | api/models/types.pb.go:942-998 | as for App, with int32 fields written as uint64 |
| Messages.Process.Unmarshal | api/models/types.pb.go:3177-3419 | as for App, with int32 fields accumulated in 32 bits |
| Messages.Formation.MarshalTo | api/models/types.pb.go:1010-1038 | as for App, with a map to int32 |
| Messages.Formation.Unmarshal | api/models/types.pb.go:3420-3604 | as for App, with a map to int32 |
| WireMeaning.VarintMeaning | api/models/types.pb.go:1460-1473 | a number is read if and only if it ends within ten bytes, and is its base 128 digits, low ones first |
| WireMeaning.VarintFails | api/models/types.pb.go:1460-1473 | it is refused exactly where it does not end, with the error of the end or of the tenth byte, and the digits so far are kept |
| WireMeaning.VarintWritten | api/models/types.pb.go:1141-1149 | what is written for a number has its digits and no more bytes than needed |
| WireMeaning.DecodeDelimited | api/models/types.pb.go:1483-1512 | a well-formed record with a length is the text of its field, or one more element of its list |
| WireMeaning.DecodeVarying | api/models/types.pb.go:1882-1900 | a well-formed record with a number is that number in two's complement, of 64 or 32 bits |
| WireMeaning.DecodeEntry | api/models/types.pb.go:3039-3155 | a record whose contents are a key in field 1 and a value in field 2 puts that value at that key |
| WireMeaning.DecodeMismatch | api/models/types.pb.go:1484-1486 | a well-formed record of another wire type is refused and changes nothing |
| WireMeaning.DecodeBadTag | api/models/types.pb.go:1476-1481 | the end of a group, and field numbers that are not positive as an int32, are refused and change nothing |
| WireMeaning.DecodeBadLength | api/models/types.pb.go:1502-1510 | a length that is negative as an int64, or reaches behind the end, is refused and changes nothing |
| WireMeaning.DecodeBadNumber | api/models/types.pb.go:1882-1900 | a number that does not end is refused, and its digits so far stand in the field |
| WireMeaning.EntryMeans | api/models/types.pb.go:913-928 | a key and a value written as records 1 and 2 mean that entry by the grammar of a message |
| WireMeaning.EntryBytes | api/models/types.pb.go:913-928 | what is written for an entry, of texts or of int32 values, is such a key and value |
| WireMeaning.RecordIsTree | api/models/types.pb.go:545-617 | what is written for an element is its well-formed record, with the field number and wire type in the tag |
| WireMeaning.EncodeIsRecords | api/models/types.pb.go:545-617 | what is written for a message is a sequence of well-formed records in the order of the field numbers, and none for a field that is zero or empty |
| RoundTrip.DecodeInvertsEncode | api/models/types.pb.go:535-617 | unmarshalling into an empty message undoes marshalling, for every message of any fields and every map order |
| RoundTrip.DecodeIntoMerges | api/models/types.pb.go:1483-1715 | unmarshalling into a message with contents merges: last nonempty scalar, appended lists, overlaid maps |
| RoundTrip.ConcatenationIsMerge | api/models/types.pb.go:1483-1715 | two encodings back to back decode to the merge of the messages |
| RoundTrip.EntryReadByPosition | api/models/types.pb.go:3039-3155 | two texts in an entry are told apart by position, whatever their tags |
| MapEntries.EntriesReadRightIff | api/models/types.pb.go:3039-3155 | for texts and, in lines 3478-3583, int32 values: entries with records in a given order are all read as the two-field grammar has it, whatever they hold and whatever follows, if and only if the key comes first, the value second if at all, and only unknown records behind |
| MapEntries.WellPlacedReadsRight | api/models/types.pb.go:3478-3583 | each entry in that order is read as the grammar has it, whatever follows |
| MapEntries.MisplacedReadsWrong | api/models/types.pb.go:3478-3583 | in every other order some entry is read wrong or refused even if nothing follows |
| MapEntries.EntryReadsRightIff | api/models/types.pb.go:3039-3155 | for texts and, in lines 3478-3583, int32 values: an entry in any order, whose first two records can be read as a text and a text or number, is read right if and only if these hold the key and value that it means |
| MapEntries.EmptyEntryReadsBehind | api/models/types.pb.go:3039-3155 | an empty entry takes its key from whatever follows, or fails where that cannot be read |
| MapEntries.EmptyEntryRightIff | api/models/types.pb.go:3039-3155 | an empty entry is read right if and only if what follows starts with an empty text |
| RoundTrip.EncodeIsInjective | api/models/types.pb.go:535-617 | equal bytes come from equal messages only |
| Concatenation.DecodeConcat | api/models/types.pb.go:1455-1736 | decoding s + t is decoding s and then t into the result, for all byte strings |
| Sizes.EncodeSize | api/models/types.pb.go:1150-1190 | the computed size is the length of the encoding |
| Sizes.EntriesSizeRemove | api/models/types.pb.go:1384-1400 | the size of a map does not depend on the order of its entries |
| UnknownFields.SkipRecord | api/models/types.pb.go:3966-4064 | skipping returns exactly the length of a well-formed record, groups of any depth included |
| UnknownFields.SkipExactlyRecords | api/models/types.pb.go:3966-4064 | a prefix is skipped if and only if it is a well-formed record |
| UnknownFields.UnknownRecordIsIgnored | api/models/types.pb.go:1716-1729 | an unknown record between two records leaves the decoded message unchanged |
| GoSlices.Slice.Append | common/util.go:95-97 | append in place while there is room, otherwise into a new array |
| GoSlices.Slice.RemoveAt | common/util.go:91-93 | the elements behind move down inside the backing array, whose last slot keeps its old element; slicing behind the end is out of range |
| Ingress.ClaimHosts | k8s/helper.go:38-54 | the first loop replaces rules of the same host in place and appends the others |
| Ingress.SweepStale | k8s/helper.go:56-78 | the removal loop over the old slice header, for every list of rules, ends in Sweep or in the panic |
| Ingress.MergeIngressRules | k8s/helper.go:37-83 | both loops on a slice with its backing array |
| IngressMerge.SweepFiltersIff | k8s/helper.go:56-78 | the removal loop removes exactly the stale rules if and only if no two stale rules stand side by side |
| IngressMerge.ClaimAllMeaning | k8s/helper.go:38-54 | with distinct hosts the first loop replaces in order and appends the new hosts in source order |
| IngressMerge.MergeIffMergeable | k8s/helper.go:37-83 | the merge is the intended one if and only if the stale rules are not in its way |
| IngressMerge.MergeOneStale | k8s/helper.go:37-83 | with at most one stale host the merge is the intended one |
| IngressMerge.IntendedMembers | k8s/helper.go:37-83 | the intended merge has exactly the rules of the app and the other rules that are neither claimed nor stale |
| IngressMerge.MergeIdempotent | k8s/helper.go:37-83 | repeating the merge changes nothing |
| IngressMerge.MergeTwiceIff | k8s/helper.go:37-83 | repeating a merge that succeeded changes nothing if and only if it was the intended one |
| IngressMerge.StaleRuleSurvives | k8s/helper.go:76 | a stale rule behind another one is passed over |
| IngressMerge.StaleRulePanics | k8s/helper.go:76 | a stale last rule behind another one makes the merge panic |
| Repeats.MergeOnce | k8s/helper.go:37-83 | a source that repeats a rule is merged as the one without repetitions |
| Repeats.PublishTwiceIff | k8s/deployer.go:402-429 | publishing again changes nothing if and only if there was no ingress or the first merge was the intended one |
| Domains.MergeAppDomains | common/util.go:72-100 | adding, or removing with a leading colon, on a slice |
| Domains.MergeDomainsIsSet | common/util.go:72-100 | the list stays without repetitions and behaves as a set |
| Domains.RemoveUndoesAdd | common/util.go:72-100 | removing a domain that was just added restores the list |
| Domains.AddKeepsOrder | common/util.go:72-100 | a new domain is put behind the others, and a known one changes nothing |
| Domains.RemoveKeepsOrder | common/util.go:72-100 | removing leaves the others in their order, and an unknown one changes nothing |
| DomainProtocol.StepKeepsInv | api/domains.go:12-37 | no step crashes and every step keeps: hosts distinct, at most one stale host for each released app, no rule of a released app with domains outside them; the one check is of the state, before an app is created or first released |
| DomainProtocol.RunIsSafe | k8s/deployer.go:164-169 | over every run of creations, domain changes, recorded or unrecorded releases and deletions of several apps that passes this check no merge panics and the invariant holds |
| DomainProtocol.DeployIff | k8s/helper.go:37-83 | a release gives the intended rules if and only if the stale rules are not in its way, and crashes if and only if the loops slice out of range |
| DomainProtocol.LegalIff | k8s/helper.go:37-83 | for an app with domains the check before a release holds if and only if the release ends and leaves no rule of the app outside them |
| DomainProtocol.BuiltIsReleasable | api/domains.go:25-36 | an app that is recorded as released always passes the check |
| DomainProtocol.UnrecordedReleaseRepeats | cloud/google/releases.go:60-68 | a release that was not recorded can be made again |
| DomainProtocol.ReleaseServesDomains | k8s/deployment.go:150-168 | after a release that passes the check the ingress leads every domain of the app to its service |
| MergeChecks.PassesIff | k8s/deployer.go:164-169 | for every step from a sane state: each merge that it would make is mergeable and a new app has a service of its own, if and only if the step does not crash, leaves a sane state and, for a release, no rule outside the domains |
| MergeChecks.PassingRunIff | k8s/deployer.go:164-169 | the same for every run |
| MergeChecks.ReleaseIff | k8s/helper.go:37-83 | a release of any app, with domains or without, cleans up after it if and only if its rules can be merged |
| MergeChecks.LegalPasses | api/domains.go:12-37 | whatever passes the check of the protocol passes the exact one |
| BadRuns.ReusedServiceCrashes | k8s/common.go:71-92 | a run in which every call but the last passes the check and the last one, for the rules of a deleted app, does not, ends in the panic |
| BadRuns.UnrecordedReleaseCrashes | cloud/google/releases.go:60-68 | the same for a first release that was not recorded |
| BadRuns.OverwrittenAppCrashes | cloud/google/store/app.go:27-35 | the same for an app that is created over itself |
| Controllers.Controller.BuildRelease | cloud/google/releases.go:32-69 | whatever the app holds, a release makes the step of the protocol that its end tells; the app is recorded as released on AWS always and elsewhere if and only if it finishes; from a safe state that passes the check it does not panic and the state stays safe |
| Controllers.StoredIsReleased | cloud/google/releases.go:32-69 | a finished release runs the image, the environment and the command that are stored of the app |
| Controllers.OnlyGcpExits | cloud/google/releases.go:60-62 | a release exits only on GCP, for an app that is linked to a database |
| Controllers.Controller.AppUpdateDomain | api/domains.go:12-37 | for every domain: the list is stored, and a released app is released with it, exactly as the release does; from a safe state and a domain that the store gives back whole it is the step of the protocol, does not panic, and stays safe unless the process exits with no default deployment there |
| Controllers.Controller.AppCreate | cloud/google/store/app.go:27-35 | a new app is the step of the protocol, GCP alone creates over an existing one, and a safe state stays safe |
| Controllers.Controller.AppDelete | cloud/google/apps.go:64-67 | deleting is the step of the protocol, and a safe state stays safe |
| Controllers.ServicesDiffer | common/util.go:36-42 | the default services of two apps never have one name |
| Controllers.EmptyHostIff | k8s/store/secret.go:26-28 | with the local provider the first release of an app without domains merges the empty host into the ingress, or creates it so, and leaves no other rule for that host; with the others it changes nothing |
| Controllers.CommaRepeatsDomain | k8s/store/secret.go:26-28 | a domain with a comma, stored by the local provider, repeats a domain of the list |
| Limits.MergeResourceConstraints | k8s/helper.go:86-146 | the new limits and requests for every text, or the error without a change |
| Limits.MergeKeepsOthersIff | k8s/helper.go:86-146 | the other resource types are kept if and only if the type is unset or there are none |
| Limits.ShownIffWellWritten | k8s/helper.go:148-171 | what is shown is what was set if and only if the text has no slash, or one between two quantities, and is not 0 |
| Limits.SettingMeaning | k8s/helper.go:86-146 | a text without a slash becomes the limit and one with a slash request and limit, if they can be read; 0 unsets the type and keeps the others |
| Limits.AsksForSomething | k8s/helper.go:109-114 | every text asks for one of these |
| Sidecar.PodTemplate.MergeCloudSQLManifest | k8s/common.go:229-308 | the proxy container replaced or appended in the slice of the spec, the volumes added once, or the exit for a database without a port |
| Sidecar.PodTemplate.PruneCloudSQLManifest | k8s/common.go:209-227 | the first proxy container spliced out and its volumes filtered |
| Sidecar.PruneUndoesMerge | k8s/common.go:209-308 | pruning undoes merging if and only if the pod had neither a proxy nor volumes of its names |
| Sidecar.MergeIdempotent | k8s/common.go:229-308 | merging twice is merging once |
| Sidecar.MergeKeepsPod | k8s/common.go:229-308 | merging keeps the app container in front and at most one proxy |
| Sidecar.PruneKeepsPod | k8s/common.go:209-227 | pruning keeps the app container and leaves no proxy |
| Clusters.Cluster.CreateOrUpdateDeployment | k8s/deployer.go:334-392 | create, or replace the container named after the service, keeping its resources and, unless given, the replicas |
| Clusters.Cluster.CreateOrUpdateService | k8s/deployer.go:261-289 | create, or update keeping cluster IP and node port |
| Clusters.Cluster.CreateOrUpdateIngress | k8s/deployer.go:402-429 | create with the rules, or merge them into the existing ones |
| Clusters.Cluster.DeployCronJob | k8s/deployer.go:202-258 | create, update schedule, parallelism and template, or delete with zero replicas |
| Clusters.Cluster.Deploy | k8s/deployer.go:88-185 | the whole deploy, with its refusals, exits, panics and the error of pods that do not get ready |
| Clusters.Cluster.SetupCloudProxy | cloud/google/cloudsql.go:48-89 | the secret and every deployment of the app, in any listing order |
| Clusters.Cluster.TearCloudProxy | cloud/google/cloudsql.go:21-46 | nothing without the secret, else every deployment pruned |
| Clusters.Cluster.SetPodEnv | k8s/common.go:97-138 | the environment of the first container of every deployment, without empty names |
| Clusters.Cluster.ProcessLimits | k8s/process.go:276-307 | the limits of every named process, stopping at the first text that does not parse |
| Clusters.Cluster.Delete | k8s/common.go:16-95 | services, deployments and cron jobs of the app deleted one by one, the ingress with the last managed service |
| Deploys.RunTwiceIff | k8s/deployer.go:88-185 | deploying again, repeated domains included, succeeds and changes nothing if and only if it deletes no cron job, creates no deployment whose container the proxy takes, and the first merge was the intended one |
| Deploys.RunTouches | k8s/deployer.go:88-185 | a deploy touches no object of another name, and the ingress only to publish domains |
| Deploys.OtherRulesSurvive | k8s/helper.go:37-83 | rules of other services for hosts that are not claimed survive every deploy that ends |
| Deploys.NewPodHasContainer | k8s/deployment.go:72-90 | a new pod has its app container in front and at most one proxy |
| Deploys.TakenByProxyIff | k8s/common.go:229-308 | the proxy takes the place of the app container if and only if the service has its name and is linked to a database |
| Requests.RunRefuses | k8s/deployer.go:91-106 | a request without namespace, app, process type or provider is refused and changes nothing |
| Requests.NewPodMeaning | k8s/deployment.go:72-90 | a new pod has the container that is asked for, alone or beside the proxy of its database |
| Requests.DeploymentMeaning | k8s/deployer.go:334-392 | a finished deploy runs what is asked for; an old deployment keeps labels, resources, sidecars and, unless others are asked for, replicas; a new one has those of the request or one |
| Requests.ServiceMeaning | k8s/deployer.go:261-289 | its service leads to the port and to the pods of the app, as a load balancer or behind the ingress, under the address it had |
| Requests.IngressMeaning | k8s/deployer.go:402-429 | each domain has one rule to the service, with the path of the provider, and all rules for other hosts were there |
| Requests.CronMeaning | k8s/deployer.go:202-258 | a finished deploy of a cron job leaves it with the schedule, the parallelism and a new pod of the request, or deletes it for zero replicas, and changes nothing else |
| Requests.ExitsIff | k8s/deployer.go:349-364 | a deploy exits if and only if it has to make a pod for a database without a port, and has changed nothing |
| Requests.PanicsIff | k8s/deployer.go:164-169 | it panics exactly where the merge of its rules does |
| Requests.FailsIff | k8s/deployer.go:172-185 | otherwise a cron job fails only if it is to be deleted and is not there, and another process only if its pods are not ready, after all has been done |
| ClusterRuns.RunKeepsInv | k8s/deployer.go:349-364 | over every run of deploys, links, unlinks, restarts, limits and deletions each pod keeps its app container and at most one proxy |
| ClusterRuns.SettingsSurvive | k8s/deployer.go:349-364 | over every such run the labels, replicas, resources, sidecars and volumes of a deployment are a fold of the actions that came to it |
| ClusterRuns.LastScaleWins | k8s/pod.go:20-42 | the replicas are those of the last scaling, whatever happened since |
| ClusterRuns.ResourcesAndSidecarsStay | k8s/process.go:276-307 | resources change only when limits of the app are set, sidecars only when it is linked or unlinked |
| ClusterRuns.AddressStays | k8s/deployer.go:261-289 | a service keeps cluster IP and node port until its app is deleted |
| ClusterRuns.EditAllAt | k8s/process.go:287-304 | an edit of all deployments changes exactly those before the one it stops at |
| Linking.EditAllAnyOrder | cloud/google/cloudsql.go:74-86 | a finished edit of all deployments does not depend on the order of the listing |
| Linking.LinkedPods | cloud/google/cloudsql.go:48-89 | after a link every pod of the app has the proxy |
| Linking.UnlinkedPods | cloud/google/cloudsql.go:21-46 | after an unlink none has a proxy or its volumes, and the unlink succeeds |
| Linking.UnlinkUndoesLinkIff | cloud/google/cloudsql.go:21-89 | unlinking restores all deployments if and only if none had proxy parts before the link |
| Databases.MergeMeaning | k8s/common.go:229-322 | a pod gets the proxy of the instance on port 3306 for mysql and 5432 for postgres, and the volume of the secret of the app unless it has one of its name; another database ends the process, and without one nothing is done |
| Databases.LinkMeaning | cloud/google/cloudsql.go:48-89 | after a finished link the secret is there and every pod of the app has this proxy, and nothing else is changed in it |
| Databases.LinkExitsIff | k8s/common.go:310-322 | a link ends the process if and only if there is a pod and the database is neither mysql nor postgres |
| Databases.UnlinkMeaning | cloud/google/cloudsql.go:21-46 | after an unlink the secret is gone and every pod keeps exactly the containers and volumes that are not of the proxy |
| Edits.RestartMeaning | k8s/common.go:97-138 | a restart gives the app container of every deployment the environment without empty names and changes nothing else |
| Edits.LimitsMeaning | k8s/process.go:276-307 | limits that finish leave each process that is named with what its text asks for, and change nothing else |
| Edits.LimitsFinishIff | k8s/process.go:276-307 | they finish if and only if each text that is meant for a process can be read |
| Linking.DeleteSafety | k8s/common.go:16-95 | all objects with the labels of datacol and of the app go, all others stay as they are, the secrets too, and the ingress goes exactly with the last service that datacol made |
| Linking.DeletedStaysGone | k8s/common.go:16-95 | over every run of deploys, edits and deletions of any apps nothing of a deleted app comes back until something is deployed for it |
| Linking.DeletesCommute | k8s/common.go:16-95 | two apps can be deleted in either order |
| Apps.ProcessList | k8s/process.go:113-186 | the processes of deployments and cron jobs that have pods, in listing order; it panics if and only if one of these has no app container |
| Releases.ListingMeaning | k8s/process.go:113-152 | exactly the deployments with pods are listed, in their order, with type, replicas, command and limits of the app container |
| Releases.JobListingMeaning | k8s/process.go:154-186 | the same for cron jobs, with parallelism and schedule |
| Apps.UpdateApp | common/apps.go:15-97 | the default process and the running others deployed in a row until one fails |
| Apps.ScaleApp | common/apps.go:99-153 | the processes of the structure scaled in any order until one fails or is unknown |
| AppRuns.DeployAllIsRun | common/apps.go:55-93 | deploys in a row are a run of the cluster, one for each request until one fails or is refused, and the row ends as that one does |
| AppRuns.DeployAllIsRow | common/apps.go:55-93 | the same for any requests, state by state |
| AppRuns.ReleaseKeepsSettings | common/apps.go:15-97 | a release of any app keeps replicas, resources, sidecars and volumes of every sound deployment |
| AppRuns.ReleaseFollowsProtocol | common/apps.go:15-97 | every release, whatever its port and Procfile, touches ingress and services as the protocol of domain changes has it, once, or not at all where it is refused or exits before |
| AppRuns.ReleaseExits | common/apps.go:55-93 | a release exits only with the database proxy, and with its default deployment there only after it has published |
| AppRuns.ReleaseDeploys | common/apps.go:31-93 | a finished release runs the new image and environment, with the command that the Procfile has, in the default process and in every process of the listing that is neither web nor cmd nor a cron job, also one that is listed twice |
| AppRuns.ServiceReachesContainer | k8s/deployer.go:154-162 | after a finished deploy the service of a process with a port leads to the port of the container asked for, with a selector that fits the pods |
| AppRuns.DomainsReachService | k8s/deployer.go:154-170 | after a finished deploy each domain leads through a rule of the ingress to the service and its port |
| AppRuns.ScaleSets | common/apps.go:99-153 | a finished scaling has given every process its replicas and image, in any order, and closed the ports |
| AppRuns.ScaleTouches | common/apps.go:99-153 | a scaling touches no object but those named after its processes, however it ends |
| Releases.RequestsMeaning | common/apps.go:31-86 | a release asks first for the default process and then, in the order of the listing, for each that is neither web nor cmd, each request field by field |
| Releases.OthersAreBeside | common/apps.go:46-55 | what is released beside the default process is the listing without web and cmd, in its order |
| Releases.ReleaseMeaning | common/apps.go:27-34 | the port is that of the environment or 8080, and one that is no number refuses the release |
| Releases.ReleaseRunsJobs | common/apps.go:55-93 | a finished release gives each listed cron job a new pod with the image, environment and command of the release, on the last schedule it is listed with, and no parallelism |
| Releases.ReleaseListens | common/apps.go:31-93 | after a finished release the default process and its service are on the port of the environment, behind the ingress with domains and a load balancer without |
| Releases.ScaleRequestsMeaning | common/apps.go:99-153 | a scaling asks for each type that has a command, each request field by field, and refuses exactly the others |
| Releases.ScaleKnowsAll | common/apps.go:126-147 | a scaling that finishes has found a command for every type |
| Releases.ScaleRuns | common/apps.go:99-153 | a finished scaling leaves each process that is no cron job with its replicas, image, environment and the command of the Procfile |
| Releases.ScaleRunsJobs | common/apps.go:99-153 | a finished scaling leaves each cron job with the schedule of the Procfile, that parallelism, image, environment and command, or deletes it for zero |
| Releases.ScaleExposesNothing | common/apps.go:99-153 | a scaling touches neither services nor the ingress, and does not panic |
| AppRuns.AppContainersPresent | k8s/process.go:138-146 | the containers that a listing of processes looks up exist in every sound state |
| CallRuns.LastScalingWins | common/apps.go:99-153 | over every run of releases, scalings, limits, links, unlinks, restarts and deletions, however each ends: the replicas of a process are those of the last scaling that reached it, be the deployment old or new |
| CallRuns.LastLimitsWin | k8s/process.go:276-307 | over every such run the resources of a process are what the text of the last limits that reached it asks for |
| CallRuns.UnreachedStays | common/apps.go:15-153 | over every such run a process that no scaling reaches keeps its replicas, one that no limits reach its resources, one that is not linked or unlinked its sidecars, and each its labels |
| CallRuns.RowSettings | common/apps.go:55-93 | a row of deploys, however it ends, changes nothing of a sound deployment but the replicas, to those of the last request made for it |
| CallRuns.ScaleRow | common/apps.go:111-150 | that request is the one of the process, or there is none |
| CallRuns.ReleaseIsLegal | common/apps.go:55-93 | the requests of a release are named after app and process |
| CallRuns.ScaleIsLegal | common/apps.go:111-150 | the requests of a scaling are named after app and process |
| CallRuns.CallsAreRun | k8s/deployer.go:88-185 | every run of calls is a run of deploys, edits and deletions of the cluster |
| CallRuns.CallsKeepInv | k8s/deployer.go:349-364 | over every run of calls each pod keeps its app container and at most one proxy |
| Isolation.NamesCollideIff | common/util.go:36-42 | two apps can have processes of one name, one of them the web process, if and only if one name goes on behind a dash where the other ends |
| Isolation.JobIDMeaning | common/util.go:36-42 | a process is named after app and type, and one without a type is cmd |
| Isolation.ReleaseIsolated | common/apps.go:15-97 | a release, however it ends, touches no object named after an app whose name does not overlap |
| Isolation.ScaleIsolated | common/apps.go:99-153 | the same for a scaling |
| Isolation.ReleaseReplacesIff | common/apps.go:46-93 | a finished release of a new image leaves a deployment of any app as it is if and only if it has the name neither of the default process nor of a listed one that is neither web nor cmd nor a cron job |
| LogPaging.BuildLogs | cloud/aws/builder.go:241-249 | one page: the nonempty lines from the position, and the next position |
| LogPaging.FollowBuild | cmd/build.go:371-390 | the polling loop prints the pages and never asks behind the end |
| LogPaging.PositionInRange | cloud/google/builder.go:249-259 | the position never passes the end of a growing log |
| LogPaging.NoLineLost | cloud/google/builder.go:249-259 | however the log grows, the complete nonempty lines are a subsequence of the lines that are shown, which are as many more as there were polls in the middle of a line |
| LogPaging.LineShownTwice | cloud/google/builder.go:249-259 | a log of one line that is shown twice |
| LogPaging.PagesAreLogIff | cloud/aws/builder.go:241-249 | the pages are exactly the nonempty lines if and only if no poll but the last found an unfinished line |
| LogPaging.WholeLines | cloud/aws/builder.go:241-249 | a log has no unfinished line if and only if it is empty or ends with a line end |
| Upload.SendChunks | client/build.go:36-59 | the chunks are nonempty, at most 1 MiB, full but for the last, rounded-up in number, and concatenate to the data |
| Upload.File.WriteToFd | api/helper.go:106-119 | the writing loop under any behaviour of the writer, bytes taken by a write that fails included |
| Upload.File.BuildUpload | api/server.go:233-248 | the receiving loop, chunk after chunk |
| Upload.TakesAllOrNothing | api/helper.go:106-119 | under any behaviour the loop returns without error if and only if the first write that takes anything takes everything and none fails until then, and then the data is written once |
| Upload.FirstWriteEnds | api/helper.go:106-119 | with a writer that keeps the contract of io.Writer the first write ends the loop, without error if and only if it took everything without one |
| Upload.HangsUntilFailure | api/helper.go:106-119 | after a short write without an error the loop goes on until a write fails |
| Upload.ShortWriteHangs | api/helper.go:106-119 | a writer that breaks the contract with a short write and no error keeps the loop going for ever, having written everything once enough writes made progress |
| Upload.UploadConserves | api/server.go:233-248 | the file is always a prefix of what was sent, and is all of it exactly when every chunk is taken by one write |
| Upload.UploadSucceedsIff | api/server.go:233-248 | with such a writer an upload never hangs and succeeds if and only if no write fails |
| Upload.UploadStops | api/server.go:233-248 | with such a writer the file is the chunks before the first write that fails and what that one took |
| Environments.LoadEnvironment | common/util.go:15-30 | lines with an equals sign and a name set the value, later ones win |
| Environments.PrintEnvironment | cmd/env.go:72-75 | one line for each variable in any order |
| Environments.RoundTripIff | common/util.go:15-30 | printing in any order and loading is the identity if and only if names are trimmed, nonempty and without equals sign and line end, and values have no line end and no trailing carriage return |
| Environments.LoadPrinted | common/util.go:15-30 | values of one line come back without a trailing carriage return |
| Environments.LoadIsOneLine | common/util.go:15-30 | no loaded environment has another name or a value of two lines |
| Environments.SetText | cmd/env.go:72-82 | the text that sets variables is the printed environment and the arguments behind it |
| Environments.SetIsOverlay | cmd/env.go:72-82 | setting overlays the lines of the arguments, whatever they hold, one after the other over what printing leaves |
| Environments.SetOne | cmd/env.go:72-82 | an argument sets its variable and no other, beside the carriage returns that printing loses |
| Environments.Unset | cmd/env.go:99-101 | the named variables are deleted |
| Environments.UnsetIsRemoval | cmd/env.go:99-108 | unsetting removes exactly the named variables from what printing leaves |
| Environments.LinkIsOverlay | cloud/google/resources.go:185-195 | linking sets exactly the two variables of the database, over what printing leaves |
| Bindings.RolesToMembersMap | cmd/provider/gcp/oauth.go:309-324 | the map has exactly the roles and grants of the list |
| Bindings.RolesToMembersBinding | cmd/provider/gcp/oauth.go:294-307 | the list has each role and each member once, walked in any order |
| Bindings.MergeBindings | cmd/provider/gcp/oauth.go:326-341 | merging keeps exactly the grants and repeats nothing |
| Bindings.AddToPolicy | cmd/provider/gcp/oauth.go:253-255 | the policy that is written has the old and the new grants, each once |
| Bindings.NormalFormIsUnique | cmd/provider/gcp/oauth.go:294-341 | the grants determine the result up to order |
| SecretStore.SecretRoundTripIff | k8s/store/app.go:88-124 | an app comes back from its secret if and only if it has no endpoint and its lists are nonempty and free of commas |
| SecretStore.SecretMeaning | k8s/store/app.go:102-124 | each field is stored under its name, lists joined by commas |
| SecretStore.EmptyListComesBack | k8s/store/secret.go:26-28 | an empty list comes back as one empty text |
| SecretStore.StoredIsStable | k8s/store/app.go:88-124 | what was read once is stored without further change |
| Strings.SplitOfJoin | k8s/store/secret.go:26-28 | splitting undoes joining if and only if the list is nonempty and free of the separator |
| ResourceLinks.AppendApp | cloud/google/resources.go:311-334 | both lists get the name once |
| ResourceLinks.RemoveApp | cloud/google/resources.go:295-309 | both lists lose the first occurrence |
| ResourceLinks.UnlinkUndoesLinkIff | cloud/google/resources.go:295-334 | removing undoes appending if and only if the name was not there, and appending twice is appending once |
| Registry.Apprc.GetAuth | cmd/stdcli/apprc.go:34-46 | the first entry of the name, or of the stack in use |
| Registry.Apprc.SetAuth | cmd/stdcli/apprc.go:48-58 | one entry of the name spliced out, the new one appended and put to use |
| Registry.Apprc.DeleteAuth | cmd/stdcli/apprc.go:60-71 | one entry of the stack in use spliced out |
| Registry.SetThenGetIff | cmd/stdcli/apprc.go:34-58 | the stack just set is found if and only if it has a name and no second entry hides it |
| Registry.SetKeepsDistinctNames | cmd/stdcli/apprc.go:48-58 | with distinct names setting keeps them distinct, is found, and leaves the other stacks alone |
| Registry.DeleteKeepsDistinctNames | cmd/stdcli/apprc.go:60-71 | with distinct names deleting keeps them distinct, is final, and leaves the other stacks alone |
| Names.UpperName | cloud/aws/helper.go:197-222 | for every name of bytes the loop yields the pieces between the dashes, each with its first byte put in upper case, and no dash; the empty name panics |
| Names.TitlesMeaning | cloud/aws/helper.go:197-222 | each piece between dashes has its first byte replaced and is kept otherwise |
| Waiting.HandlePendingPods | k8s/pod.go:235-261 | no extra time is ever given; a failing pod is an error |
| Waiting.WaitUntilDeploymentReady | k8s/deployment.go:227-277 | for every behaviour of the cluster at most 120 checks in the loop, 11 checks of pending pods and one check at the end, and exactly where the loop stops |

## Left out

- The generated types Release, Resource, ResourceLimits and the other messages: they have no shape of field that App, Build, Process, Formation and EnvConfig do not have, and the wire theorems hold for messages of any fields.
- RoundTrip.DecodeInvertsEncode: messages whose size is not a Go int, which no program can hold.
- Messages.App.Unmarshal: an offset plus a declared length does not wrap the Go int, and OR into clear bits is addition.
- Wire.Encode: a nil map and an empty map, or nil and empty bytes, are the same message.
- MapEntries.EntriesReadRightIff: key and value records have tags and lengths in their shortest form; bodies that are not records have no meaning by the grammar; an order has less than 2 to the 58 records.
- MapEntries.EntryReadsRightIff: entries that start with a number, a fixed-size record or a group where a text is read, or have one of the latter two where a number is read, so that bytes of one record are taken for the length of another.
- String, getters, descriptors, the gRPC and gateway stubs and the unused fixed-width helpers.
- Kube.Run: one namespace, its creation and its default limit range; readiness probes, annotations, restart and rollout policies; errors of the API server other than already exists, not found and an invalid pod; AWS's nginx controller.
- Kube.NewContainer: limits inside a deploy request, which nothing in the repository sets; the order of environment variables.
- Kube.NewService: services have one port.
- Kube.EditAll: each edit reads and writes a deployment at once, so that updates that race with each other are not covered.
- Clusters.Cluster.SetupCloudProxy: making the credentials of the secret.
- Clusters.Cluster.Delete: the replica sets and waiting for the pods of a deployment.
- Controllers.Controller: restarts; the build, image and environment of an app change between releases, but the port and the default process type that they give stay as they are.
- Controllers.Controller.AppUpdateDomain: the invariant after a domain with a comma on the local provider, which the store gives back in pieces, see CommaRepeatsDomain.
- DomainProtocol.RunIsSafe: runs that fail the check of the state, see MergeChecks for the exact one and BadRuns for what can come of it.
- CallRuns.CallsAreRun: processes named like the proxy container; the theorems about single processes have them.
- CallRuns.LastScalingWins: the replicas of cron jobs, which are the parallelism, and a deployment that is deleted and made again.
- ClusterRuns.SettingsSurvive: the parallelism of cron jobs across deploys.
- Apps.ProcessCommand: parsing of Procfiles; commands that are lists of something else than texts.
- Apps.ProcessList: the status of pods.
- Limits.GetRequestLimit: quantities keep the text they were written in, where the Kubernetes library prints a canonical form.
- Environments.LoadEnvironment: the token limit of the line scanner; invalid UTF-8.
- LogPaging.BuildLogs: fetching the log, and on GCP the waiting for it to appear.
- Upload.SendChunks: a stream that the server closes early.
- Registry.Apprc.SetAuth: writing the file, and entries that are shared by pointer.
- Names.UpperName: what the library makes of one byte that is no character is arbitrary, except that it has no dash.
- Waiting.WaitUntilDeploymentReady: the sleeps, and what is done about pods that are not ready at the end.
- Cloud clients, OAuth, websockets, templates, tables, logging and the other commands of the client.
