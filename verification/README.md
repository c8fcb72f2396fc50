# A model of the HStream operator

This project models two parts of the HStream operator for Kubernetes and proves what they promise.

**The argument and port engine.** `FlagSet.dfy` is the stateful flag parser with its sorted printer, `Arguments.dfy` is `extendArgs`,
`Ports.dfy` holds `extendPorts`, `coverPortsFromArgs` and the Service conversion, `HMeta.dfy` is the second parser and the two routes to the
HMeta address, `Agreement.dfy` compares the ports of a workload with the ports of its Service, and `HServer.dfy` treats the generated HServer
command line. `Templates.dfy` says what each workload is to be, and `Builders.dfy` builds it step by step; `Wanted.dfy` writes out what the
containers are then told and what the first step records.

**The reconcile pipeline.** `Cluster.dfy` holds the stored world, the operator's possibly stale copy of the resource, and an environment that
acts before every call. `Steps.dfy` gives the twelve sub-reconcilers, one pass over them, and any number of passes, as functions on states.
`Operator.dfy` is the same pipeline as classes whose methods change the API server and the copy, each proved equal to its function.
`Safety.dfy`, `Runs.dfy` and `RunTheorems.dfy` prove what every stored world of every run satisfies, `Outcomes.dfy` what a pass answers and
why, and `Panics.dfy` when a pass panics.
`Settling.dfy` proves quiescence while reads succeed, `Quiescence.dfy` gives its exact form and `Shards.dfy` that of the shard count, and
`Misreads.dfy` holds inputs on which both fail. `Convergence.dfy` proves convergence with a rank, and `NeverReady.dfy` its other half.
`Conditions.dfy` is the list of status conditions, and `Metadata.dfy` is `mergeMap`. `Text.dfy` and `Api.dfy` hold shared vocabulary.

**The two together.** `LivePorts.dfy`: after a done pass the live Service and the live workload of a component list the same ports.

`dafny verify dfyconfig.toml` checks everything.

## What a run is

A run is a sequence of passes. Each pass first reads the resource; the read may return the current object, any object with an older version,
nothing, or an error. Every later call is served at one tick of a tape. The tick says what others did just before (edit the spec, touch the
object, change ready counts) and whether the call fails, with a conflict or otherwise. Theorems quantify over all tapes, all reads and
all numbers of passes. The assumptions about the environment are these:

- a status write from a copy with an old version is rejected;
- a write either commits and returns success, or does neither;
- there is a single worker, so passes do not overlap, and a pass that begins is never cut short by the operator's process dying
  (`BootstrapsConserved` needs this between a bootstrap and the status write that records it);
- only the operator writes the status and the owned objects, and nobody deletes owned objects or ConfigMaps;
- reads of owned objects within a pass are current (only the read of the resource itself may be stale);
- the hash of an object is an unknown function of its key and contents. Two theorems assume something of it, in their own words: that
  equal hashes under one key imply equal replica counts (`HashTellsReplicas`), or equal ports up to order (`HashTellsPorts`). Both are
  weaker than freedom from collisions up to the order of slices.

## What the proofs found in the code

- A lone `-` that the parser reaches while no flag waits for a value makes it index out of range (internal/flagset.go:52);
  `PanicExactlyAtLoneDash` says when and `DashPanics` gives lists. With a negative HServer replica count whose seed nodes are not given
  (internal/controller/add_hserver.go:185) that is all that can panic: `PanicsExactly` for each workload, `PassCrashes` for a pass.
- A value that starts with `-` or `=`, as in `--x=-1`, does not survive printing and re-parsing (`RoundTrip`, `AssignedDashIsLost`).
- A default `-p` would override a user's `-p` (`CanonicalMerge`); no default list of the repository has one.
- HServer and the LogDevice config can be given different HMeta addresses. `AddressesAgree` says exactly when;
  `--http-addr=host:port`, an address after `--`, and a mixture of `--http-addr a:1` and `--http-addr=b:2` are inputs
  (`AssignedAddressDisagrees`, `TerminatedAddressDisagrees`, `MixedAddressesDisagree`).
- Covering ports from the generated HServer arguments does nothing, because the first token is the binary's name (`BinaryStopsParser`).
- The seed nodes always use the default internal port. `SeedNodesRight`: they are the servers' addresses exactly when neither a flag nor
  a port of the user says another internal port. `SeedNodesWrong`: with `--internal-port 7000` none of them is.
- HServer is told to listen on 6570 unless the user gives `--port`, but a user's port named `port` keeps its own number in the StatefulSet
  and the Service (internal/controller/add_hserver.go:168-173). `ListedIsTold`: the listed number is the told one exactly when the flag is
  given or no such port says otherwise, and so for `internal-port`. `ListedNotListened`: a port `port` 7000 is listed and 6570 listened on.
- A negative count among the default arguments ends the reading of the defaults there, silently (`DefaultsCutShort`).
- Arguments of an internal HMeta that the parser rejects are an error of the Services step (internal/controller/add_services.go:72-75), so
  no pass on such a resource creates a Service or a workload (`RejectedBuildsNothing`); rejected arguments of the other workloads are not.
- A port named after a default flag gets different numbers in the workload and in the Service (`NamedAfterDefaultDisagrees`).
- The branches for a gateway that waits, for a resource that is not ready at the end, and for a delayed requeue are never taken (`DeadBranches`).
- Two failed reads are passed over: of the nshards ConfigMap (internal/controller/logdevice_config.go:71-73 and
  internal/controller/add_hstore.go:178-185) and of the live HServer (internal/controller/add_geteway.go:156). Either alone makes the
  operator rewrite a settled cluster (`ShardReadBreaksQuiescence`, `PortReadBreaksQuiescence`), and the first leaves HStore with another
  shard count than the recorded one (`ShardReadBreaksRecord`). `QuiescentExactly` and `CarriedExactly` say exactly when this does not happen.
- A workload with no ready replica never counts as ready, even when it asks for none (internal/controller/bootstrap_hstore.go:87): then
  no pass is ever done (`NeverReadyNeverDone`). With no HStore replicas the metadata replication sent would be zero
  (`ReplicationBounded` says exactly when it is positive).

## Model

| member | source | states |
|---|---|---|
| Flags.KeyIsFlagToken | internal/flagset.go:45-85 | a text has the shape of a key (one or two dashes, a nonempty name, no `=`, no third dash) exactly when the parser reads it as a bare flag |
| Flags.ParseShape | internal/flagset.go:18-110 | for every argument list: every stored key has the key shape, and the unread arguments are a suffix of the input |
| Flags.RunAppend | internal/flagset.go:18-110 | parsing a concatenation is parsing the second list from where the parser stood after the first, unless it had already stopped |
| Flags.PanicExactlyAtLoneDash | internal/flagset.go:39-60 | parsing indexes out of range exactly when some lone `-` is reached with no flag waiting for a value |
| Flags.DashPanics | internal/flagset.go:46-60 | two concrete lists that index out of range, and one where the dash is rejected instead because a flag waits |
| Flags.NoLoneDashNoPanic | internal/flagset.go:39-60 | a list without a lone `-` never does |
| Flags.AcceptsExactly | internal/flagset.go:39-110 | for every list, position by position before the first `--`: it is accepted exactly when each dashed token has the key shape (before its first `=`, if any) and does not directly follow a bare flag, and each nonempty word directly follows one and does not start with `=`; an empty token may stand anywhere |
| Flags.RoundTrip | internal/flagset.go:18-134 | re-parsing the sorted flag/value list of any parsed map is accepted exactly when no value starts with `-` or `=`, and then gives the same map; otherwise exactly what was read before the first bad value |
| Flags.RoundTripOfParsed | internal/flagset.go:18-134 | the same for the map any argument list parses to, accepted or not |
| Flags.AssignedDashIsLost | internal/flagset.go:65-98 | the concrete list `--x=-1`, whose value is lost by printing and re-parsing |
| Flags.SortedIsUnique | internal/flagset.go:123-134 | whatever order the map yields its keys in, sorting gives one and the same list |
| Flags.FlagSet.ParseOne | internal/flagset.go:39-110 | one step on the fields leaves a scan with the same result from fewer arguments, or ends exactly as the scan ends |
| Flags.FlagSet.Parse | internal/flagset.go:18-36 | the fields and the outcome after the loop are those of the parser as a function, from whatever it held |
| Flags.FlagSet.Visit | internal/flagset.go:113-117 | the visitor sees the flags in increasing order, each once, with its value |
| Flags.SplitFlag | internal/flagset.go:65-78 | the loop finds the first `=` after the name's first character, or none |
| Text.LessExactly | internal/flagset.go:130-132 | the order of the flags is byte order: after an equal prefix the first text ends first or has the smaller byte, and conversely |
| Flags.PrintedInByteOrder | internal/flagset.go:113-134 | of two printed flags the earlier one is a proper prefix of the later one or has the smaller byte where they first differ; each is followed by its value |
| Flags.TwoPrinted | internal/flagset.go:113-134 | the flags of `--b 1 --a 2` are printed as `--a 2 --b 1` |
| Flags.SortFlags | internal/flagset.go:123-134 | the slice filled in any order and sorted in place is the increasing list of the keys |
| Arguments.ExtendArgs | internal/controller/utils.go:85-116 | for every order in which the two Go maps are visited the result is the printed merge, an error exactly when the user's list is rejected |
| Arguments.CanonicalMerge | internal/controller/utils.go:85-116 | strictly sorted flag/value pairs for exactly the user's flags and the defaults whose dash-stripped name the user did not give (`-p` counting as `port`); the user's value wins except exactly for a default `-p` |
| Arguments.UserWins | internal/controller/utils.go:92-109 | every user value survives the merge if and only if no default `-p` meets a user `-p` with another value while no other user flag is named `p` |
| Arguments.NamesAreDashless | internal/controller/utils.go:92-101 | a flag's name is its text without the leading dashes, all of them and nothing else; `-p` stands for `port` |
| Arguments.ShortPortExample | internal/controller/utils.go:85-116 | a user's `-p 1` with the defaults `--port 2 --x 3` gives `--x 3 -p 1` |
| Arguments.ExtendIdempotent | internal/controller/utils.go:85-116 | extending twice equals extending once exactly when every merged value survives printing; otherwise the second call is an error |
| Ports.ExtendPorts | internal/controller/utils.go:118-135 | the result is the ports followed by the external ones whose names are free, and the variadic slice changes only by naming unnamed ports |
| Ports.CoverPortsFromArgs | internal/controller/utils.go:138-155 | a new list, each port's number replaced by that of the flag named like it, from whatever the parser read |
| Ports.ConvertToServicePort | internal/controller/add_services.go:127-137 | one Service port per container port, in order, with name, protocol and number |
| Ports.ExtendKeepsPorts | internal/controller/utils.go:118-135 | extending keeps the given ports as a prefix |
| Ports.ExtendsByOne | internal/controller/utils.go:118-135 | one external port is dropped if its name is taken and otherwise added, under a name made from its number if it has none |
| Ports.ExtendsInTurn | internal/controller/utils.go:118-135 | several external ports are taken one after the other |
| Ports.CoversByName | internal/controller/utils.go:138-155 | a port gets the number after the flag that is two dashes and its name, from an accepted or a rejected list, and keeps its name and protocol |
| Ports.CoverIdempotent | internal/controller/utils.go:138-155 | covering twice with the same flags is covering once |
| Ports.CoverExtend | internal/controller/utils.go:118-155 | covering and extending commute as far as a later covering can tell |
| Ports.CoverFixed | internal/controller/utils.go:138-155 | covering changes nothing exactly when no flag named like a port says another number |
| HMeta.ParseArgs | pkg/args/parse.go:23-41 | the loop computes the second parser's map |
| HMeta.ParsersAgree | pkg/args/parse.go:23-41 | on a list the first parser accepts, the second gives the same map exactly when no token is `--` or a flag with `=` |
| HMeta.AddressesAgree | internal/utils/hmeta.go:30-61 | for every argument list: HServer and the LogDevice config are given the same address exactly when HMeta is external, or the list is accepted and the last `--http-addr` before any `--`, bare or assigned, names the same port as the last bare one anywhere |
| HMeta.RunSetting | internal/flagset.go:39-110 | on every accepted list the first parser leaves a flag at its last setting before `--`, bare or assigned |
| HMeta.ReadSetting | pkg/args/parse.go:23-41 | on every list the second parser leaves a flag at its last bare setting |
| HMeta.AddressesSay | api/v1alpha2/hstreamdb_types.go:129-135 | the external and the internal address, character by character |
| HMeta.HMetaPortSays | internal/controller/utils.go:199-215 | HMeta's port is the one after the colon of `--http-addr`, and 4001 without the flag or without a colon |
| HMeta.PlainAddressesAgree | internal/utils/hmeta.go:30-61 | accepted lists without `--` and without `=` in a flag token give one address |
| HMeta.TerminatedAddressDisagrees | internal/utils/hmeta.go:48-61 | the concrete list `-- --http-addr h:5`, accepted and without `=`: HServer is given port 4001, LogDevice port 5 |
| HMeta.MixedAddressesDisagree | internal/utils/hmeta.go:48-61 | a concrete list that sets the address both ways |
| HMeta.OtherAssignmentAgrees | internal/utils/hmeta.go:48-61 | a concrete list with `=` on which the addresses agree |
| HMeta.AssignedAddressDisagrees | internal/controller/utils.go:184-215 | for every single `--http-addr=host:port` with another port than the default the two addresses differ |
| Agreement.ContainerArgsNeverPanic | internal/controller/utils.go:85-116 | completing arguments panics only if parsing the user's arguments does |
| Agreement.DefaultPassed | internal/controller/utils.go:102-115 | a default whose name the user did not give is in the container's arguments, directly followed by its value |
| Agreement.UserPassed | internal/controller/utils.go:85-116 | so is every flag the user gave, with the user's value, unless a default `-p` takes its place |
| Agreement.PanicTogether | internal/controller/add_services.go:122-125 | the two routes to the ports panic together, and only on the user's own arguments |
| Agreement.WorkloadReadsBack | internal/controller/add_hstore.go:122-126 | the container's ports are covered with what survives merging, printing and re-parsing |
| Agreement.PortsAgreeInGeneral | internal/controller/add_services.go:122-125 | for every accepted list: workload and Service agree exactly when each port's number is the same under the flags read back and the raw flags |
| Agreement.PortsAgree | internal/controller/add_services.go:122-125 | for accepted lists with printable values: they agree exactly when no port is named after an added default flag that renumbers it |
| Agreement.PortsAgreeWhenRejected | internal/controller/add_hstore.go:125-126 | when the list is rejected: they agree exactly when no flag read before the rejection renumbers a port |
| Agreement.DefaultsCutShort | internal/controller/utils.go:102-109 | a default value that looks like a flag ends the reading of the defaults: they count up to its flag, left without a value |
| Agreement.HStoreAndAdminServerAgree | internal/controller/add_admin_server.go:112-113 | HStore and AdminServer: container ports and Service ports are equal in order, name and number if the user names no port after a default flag; for every shard count, a negative one included |
| Agreement.NamedAfterDefaultDisagrees | internal/controller/add_hstore.go:122-126 | a concrete HStore port named `name` for which they differ |
| Agreement.HMetaPortsAgree | internal/controller/add_hmeta.go:132-137 | HMeta: for accepted lists they agree exactly when all values are printable, or the address flag gives no port, or the user already named both candidate ports; for every replica count |
| HServer.CommandLineComposes | internal/controller/add_hserver.go:139-202 | the tokens after the binary parse to the disjoint union of the user's flags and the ten managed defaults the user did not give, and stop as the user's list does |
| HServer.ServerIsTold | internal/controller/add_hserver.go:146-181 | the flags HServer reads off its command line: every user flag with the user's value, and otherwise `--port` 6570, `--internal-port` 6571, and the three fixed paths and addresses |
| HServer.ServerIsToldNames | internal/controller/add_hserver.go:152-199 | and otherwise the advertised address, the admin host, the server id and the seed nodes, written out |
| HServer.ServerIsToldMeta | internal/controller/add_hserver.go:161-164 | without the user's `--metastore-uri` HServer is told the address that is in the LogDevice config exactly when the two routes to it agree |
| HServer.ListedIsTold | internal/controller/add_hserver.go:168-181 | every listed port named `port` has the number HServer is told to listen on exactly when the user gives `--port` or names no such port with another number than 6570; so for `internal-port` and 6571 |
| HServer.ListedNotListened | internal/controller/add_hserver.go:168-173 | a user port `port` 7000 without `--port` is listed, while the server is told 6570 |
| HServer.SeedNodesInOrder | internal/controller/add_hserver.go:183-199 | one seed node per replica, in order, each with its index, the headless name, the namespace and 6571 |
| HServer.BinaryStopsParser | internal/controller/add_hserver.go:139-181 | any generated list is rejected at its first token, with no flag read |
| HServer.SettledClosedForm | internal/controller/add_hserver.go:168-181 | the StatefulSet's ports in closed form in each branch |
| HServer.HServerPortsAgree | internal/controller/add_hserver.go:122-181 | in every branch StatefulSet and Service list the same ports, with the same numbers for `port` and `internal-port`; the lists are equal exactly under the stated condition on command and flags |
| HServer.SettledInternalPort | internal/controller/add_hserver.go:168-181 | every settled port named `internal-port` has the default number exactly when neither a flag nor a port of the user says another |
| HServer.SeedNodesRight | internal/controller/add_hserver.go:175-199 | the seed nodes the operator adds are the servers' addresses exactly under that condition |
| HServer.SeedNodesWrong | internal/controller/add_hserver.go:183-199 | with `--internal-port 7000` no seed node is a server's address |
| Templates.ExtendEnvs | internal/controller/utils.go:70-83 | the variables followed by the external ones whose names were free at the start |
| Templates.ShardMountsDistinct | internal/controller/add_hstore.go:134-141 | as many mounts as shards, no two on the same path |
| Templates.PanicsExactly | internal/controller/add_hserver.go:122-203 | for every resource and shard count: building each workload panics exactly in the stated cases, and only the console can fail otherwise, exactly when it is told a port that is no number |
| Templates.NegativeReplicas | internal/controller/add_hserver.go:183-199 | a negative replica count panics without seed nodes, and does not when they are given |
| Templates.ShardsInTemplate | internal/controller/add_hstore.go:122-141 | the HStore template has the shard mounts of its count, and `--num-shards` with it unless the user's arguments name it or are rejected |
| Wanted.HStoreIsTold | internal/controller/add_hstore.go:122-125 | HStore's arguments hold each of its five defaults, flag and value written out, unless the user's accepted arguments name that flag; a negative count is told as no value |
| Wanted.AdminServerIsTold | internal/controller/add_admin_server.go:112 | the same for AdminServer's four, three of them switches without a value |
| Wanted.HMetaIsTold | internal/controller/add_hmeta.go:132-135 | the same for HMeta's five: the number of servers to expect is the replica count, and the name to find them under the headless one; with a negative count the former has no value |
| Wanted.ExtendedNamed | internal/controller/utils.go:70-83 | after extending, a variable has the value of the user's first one of that name, or else of the first given one; the user's come first |
| Wanted.GatewayIsTold | internal/controller/add_geteway.go:118-136 | the gateway's endpoint, the HServer it is to use, TLS on with the three paths exactly when there is a secret and off otherwise, each unless the user sets the variable |
| Wanted.GatewayAsks | internal/controller/add_geteway.go:147-168 | the port in that address is the first one named `port` of the live HServer container, and 6570 if the read fails or there is none |
| Wanted.GatewayRuns | internal/controller/add_geteway.go:103-116 | the gateway's command and arguments are the user's, and it lists its own port unless the user names one `port` |
| Wanted.ConsoleListens | internal/controller/add_console.go:142-162 | the console lists the port of `-Dserver.port`, else that of `SERVER_PORT`, else 5177, which alone is put into the environment |
| Wanted.ConsoleFails | internal/controller/add_console.go:142-156 | building the console fails exactly when the told port, from the argument or else the variable, is no number |
| Wanted.ConsoleIsToldAddress | internal/controller/add_console.go:164-180 | the console is told HServer's headless name and last port named `port`, unless its arguments or variables name an address |
| Wanted.LastPortLast | internal/controller/add_console.go:167-172 | the loop's number is that of the last port named `port`, or 0 |
| Wanted.ShardMounted | internal/controller/add_hstore.go:134-141 | shard i is mounted under its own name at its own path |
| Wanted.HServerRuns | internal/controller/add_hserver.go:122-203 | HServer runs the user's command, or arguments that start a shell line, as given; and otherwise one shell line of the binary, the missing managed flags and the user's arguments |
| Wanted.BuiltFromResource | internal/controller/add_hstore.go:94-143 | HMeta, AdminServer and HStore get the replicas, name, command and variables of their own part of the resource, or the defaults written out |
| Wanted.DefaultServices | internal/controller/add_services.go:34-84 | the four Services of a resource without arguments and ports list these ports |
| Builders.BuildHMeta | internal/controller/add_hmeta.go:96-144 | the steps build the HMeta template |
| Builders.BuildAdminServer | internal/controller/add_admin_server.go:95-121 | the steps build the AdminServer template |
| Builders.BuildHStore | internal/controller/add_hstore.go:94-143 | the steps build the HStore template for the given shard count |
| Builders.MountShards | internal/controller/add_hstore.go:134-141 | the loop appends one mount per shard |
| Builders.DefaultCommandArgsAndPorts | internal/controller/add_hserver.go:122-203 | the growing argument list and the reassigned ports end as the command, arguments and ports of the template |
| Builders.GetSeedNodes | internal/controller/add_hserver.go:183-199 | the loop fills one address per replica |
| Builders.BuildHServer | internal/controller/add_hserver.go:88-120 | the steps build the HServer template |
| Builders.BuildGateway | internal/controller/add_geteway.go:103-145 | the steps build the gateway template for a given HServer port |
| Builders.BuildConsole | internal/controller/add_console.go:125-204 | the steps build the console template, an error exactly when the told port is no number |
| Builders.ParsePort | internal/controller/utils.go:199-215 | the port from `--http-addr`, or the default with or without an error |
| Builders.GetHMetaAddr | internal/controller/utils.go:184-197 | the address HServer is given |
| Builders.GetPorts | internal/controller/add_services.go:122-125 | the Service's ports from the raw arguments |
| Builders.GetHMetaPorts | internal/controller/add_services.go:65-80 | the HMeta Service's ports, an error exactly when the arguments are rejected |
| Metadata.Labels.Merge | internal/controller/utils.go:57-66 | the map after the loop, for every order of visiting, and whether anything changed |
| Metadata.MergedReads | internal/controller/utils.go:42-66 | afterwards every desired key reads as desired and every other as before, no key is lost, and merging again changes nothing |
| Conditions.HStreamDB.SetCondition | api/v1alpha2/condition_type.go:36-54 | the list becomes a newest-first arrangement of the list with the one condition replaced or added |
| Conditions.HStreamDB.GetCondition | api/v1alpha2/condition_type.go:26-34 | the first condition of the type, or none |
| Conditions.HStreamDB.IsConditionTrue | api/v1alpha2/condition_type.go:18-24 | whether that condition's status is `True` |
| Conditions.ListAfterCalls | api/v1alpha2/condition_type.go:18-54 | after any calls from an empty list: one condition per type, newest first; each as its last call left it, with the time its status last changed |
| Conditions.ListStandsForMap | api/v1alpha2/condition_type.go:36-54 | after any calls the list represents a map, the one the calls say |
| Conditions.SetsOneTruth | api/v1alpha2/condition_type.go:36-54 | one call changes what `IsConditionTrue` says of its type and of no other: the view the pipeline takes |
| Safety.EnsureKeeps | internal/controller/add_services.go:88-120 | get, compare and write keeps every invariant of stored worlds, under any faults and interference |
| Runs.FenceKeeps | internal/controller/update_hmeta_status.go:31-57 | whatever copy the pass began with, past this status write the copy's conditions are the stored ones |
| Runs.StepKeeps | internal/controller/hstreamdb_controller.go:87-100 | each of the twelve steps keeps the invariants of stored worlds, reaches the next stage if it goes on, and otherwise stops properly |
| Runs.PassKeeps | internal/controller/hstreamdb_controller.go:75-137 | so does a whole pass, from any stale copy |
| Runs.RunKeeps | internal/controller/hstreamdb_controller.go:75-137 | every world stored in any run satisfies the invariants and keeps what came before |
| Outcomes.RequeueAnswers | internal/controller/requeue.go:41-57 | a conflict asks for another pass after the delay, or a second if there is none; any other error is the answer; without an error the delay is |
| Outcomes.PassHidesConflicts | internal/controller/requeue.go:41-47 | no pass, from any state and copy, answers with a conflict; it answers nothing exactly when the resource is gone, and an error when the first read fails |
| Outcomes.EndingAnswers | internal/controller/hstreamdb_controller.go:104-137 | in every pass of every run the step that ends it decides the answer: a conflict one second, another error that error, no error a positive delay, no such step done |
| Outcomes.StatusWriteExactly | internal/controller/update_hmeta_status.go:55-57 | a status write answers a conflict exactly when the call meets one or the copy is old, another error exactly when the call meets that, and otherwise stores the copy's conditions and nodes |
| Outcomes.OldCopyTurnedAway | internal/controller/update_hmeta_status.go:31-57 | a pass on an old copy stores nothing at the HMeta step and is run again after a second |
| Outcomes.EnsureStops | internal/controller/add_services.go:88-120 | get, compare and write stops exactly at the first call that fails, with that call's error |
| Outcomes.HMetaErrors | internal/controller/update_hmeta_status.go:26-57 | in the HMeta step only the status write gives an error: a failed read or admin call before it, or a node that is down, is a wait |
| Outcomes.BootstrapErrors | internal/controller/bootstrap_hserver.go:24-56 | so in the two bootstrap steps |
| Outcomes.RejectedBuildsNothing | internal/controller/add_services.go:65-84 | on a resource whose internal HMeta has arguments the parser rejects, no pass is done and none creates a Service or a workload |
| Outcomes.EnsureStores | internal/controller/add_services.go:88-120 | a write stores what is wanted under its own hash, keeps the ready replicas, and touches nothing else |
| Outcomes.Waits | internal/controller/bootstrap_hstore.go:34-53 | the three waiting steps ask for one second, or for five after an admin call that failed |
| Outcomes.GatewayWaits | internal/controller/add_geteway.go:26-28 | before HServerReady the gateway step only waits, ten seconds |
| Outcomes.BootstrapOfResource | internal/controller/bootstrap_hstore.go:41-69 | a bootstrap is sent for the replicas and the setting of the copy while the live workload runs; the step then waits a second exactly when its record is stored |
| Outcomes.ComponentChecked | internal/controller/update_status.go:36-61 | a wanted component is read in every pass; the check goes on exactly when the read succeeds and the workload is there, and then sets its condition |
| Outcomes.StatusGoesOn | internal/controller/update_status.go:16-34 | after its status write the last step goes on exactly when everything is ready, and otherwise asks for another pass in the end |
| Outcomes.NotReadyAnswers | internal/controller/hstreamdb_controller.go:104-137 | that wish is answered with a requeue after a second |
| Outcomes.ReadyMeans | internal/controller/update_status.go:63-100 | Ready is stored as true exactly when the three conditions, and those of the wanted components, are |
| RunTheorems.ConditionsMean | internal/admin/types.go:73-85 | in every stored world of every run: under HMetaReady the stored nodes are not empty and all reachable, and under each other condition its workload exists |
| RunTheorems.HMetaStepGoesOn | internal/controller/update_hmeta_status.go:16-59 | the HMeta step goes on only with all nodes it was told of reachable and stored and, for an internal HMeta, with at least one ready replica and as many as the live workload asks for |
| RunTheorems.NodeDownWaits | internal/controller/update_hmeta_status.go:36-38 | with one node down it stores nothing and waits a second |
| RunTheorems.ReplicationSent | internal/controller/bootstrap_hstore.go:41-46 | every bootstrap of every run asks for the setting if that is given and not more than the desired replicas, and otherwise for the least of 3 and those |
| Wanted.ConfigRecorded | internal/controller/logdevice_config.go:36-66 | the LogDevice config is written once, from the HStore replicas, the given configuration, and the external HMeta's address or the internal one with the port of the last bare `--http-addr` |
| Wanted.CountRecorded | internal/controller/logdevice_config.go:68-95 | the shard count is recorded once, as the resource's numeral, or 1 if that is zero; only a failed read leaves it out |
| RunTheorems.ReadinessOrder | internal/controller/hstreamdb_controller.go:87-100 | in every stored world Ready implies HServerReady implies HStoreReady implies HMetaReady, and no workload exists before its gate |
| RunTheorems.ConditionsLatch | internal/controller/update_status.go:63-99 | no stored condition goes from True back to False, and none is ever stored as False |
| RunTheorems.BootstrapsConserved | internal/controller/bootstrap_hstore.go:22-64 | at every pass's end successful bootstraps are the recorded one plus those whose status write failed; the same for inits |
| RunTheorems.NoBootstrapOnceReady | internal/controller/bootstrap_hserver.go:19-55 | once HStoreReady is stored there is never another bootstrap, once HServerReady never another init, however stale the copies |
| RunTheorems.NoStalledPass | internal/controller/hstreamdb_controller.go:104-137 | a pass over an existing resource ends in an error, a requeue after a positive delay, or done with Ready stored; it panics only on a resource something of which cannot be built, and is never done on one |
| Panics.SomeStepPanics | internal/controller/hstreamdb_controller.go:87-100 | a resource can make the program panic exactly when what some step builds for it does |
| Panics.StepCrashes | internal/controller/hstreamdb_controller.go:87-100 | a step panics only if what it builds does, and then does not go on; a workload step exactly then |
| Panics.PassCrashes | internal/controller/hstreamdb_controller.go:104-137 | a pass panics only on such a resource, and is never done on one |
| RunTheorems.DeadBranches | internal/controller/update_status.go:29-31 | the gateway never waits, the delayed requeue is never asked for, and a pass that no step ends is done |
| RunTheorems.ShardCountFrozen | internal/controller/logdevice_config.go:68-95 | once recorded the shard count never changes, whatever fails; while its reads succeed every later live HStore workload has exactly that many distinct mounts and was told that count |
| Wanted.CountSeen | internal/controller/add_hstore.go:174-187 | HStore is built for the recorded count if the record is read and is a numeral, and otherwise for the resource's own |
| Shards.SeenIsRecorded | internal/controller/add_hstore.go:174-187 | the count HStore is built for is the recorded one exactly when the record is read or the resource says the same |
| Shards.HStoreStepCarries | internal/controller/add_hstore.go:22-63 | the HStore step keeps the live workload at the recorded count exactly when it does not write it without the record while the resource gives other mounts |
| Shards.PassCarries | internal/controller/hstreamdb_controller.go:104-137 | so does a pass, exactly when it does not get to such a write |
| Shards.CarriedExactly | internal/controller/logdevice_config.go:68-95 | over every run: the live HStore carries the recorded count after every pass if and only if no pass made such a write |
| Misreads.FailedShardReadStrays | internal/controller/add_hstore.go:174-187 | for every simple settled resource: with that one read failing and nothing else, HStore no longer carries the recorded count |
| Misreads.ShardReadBreaksRecord | internal/controller/add_hstore.go:174-187 | a concrete resource, hash and tape where one shard is recorded and two are mounted |
| RunTheorems.ReplicationBounded | internal/controller/bootstrap_hstore.go:28-53 | every bootstrap sent asks for at most the desired replicas and, if hashes tell replica counts apart, at most the ready ones; at least one exactly when replicas are desired and the setting is absent or positive |
| Settling.EnsureOwns | internal/controller/add_services.go:88-120 | a write touches only its own object, leaves it up to date, and does not happen if it was |
| Settling.StepSettles | internal/controller/hstreamdb_controller.go:87-100 | every step writes only its own objects, leaves its part in place when it goes on, and writes nothing if it was |
| Settling.GatewaySettles | internal/controller/add_geteway.go:30-61 | the same for the gateway, whose desired value is read off the live HServer |
| Settling.PassSettles | internal/controller/hstreamdb_controller.go:104-137 | a pass that is done leaves every part in place for its resource |
| Settling.Quiescent | internal/controller/utils.go:180-182 | while the reads of the nshards ConfigMap and of HServer's port succeed: after a done pass, from any state, any number of passes on the same resource create and update no ConfigMap, Service or workload |
| Quiescence.EnsureWritesExactly | internal/controller/add_services.go:88-120 | get, compare and write counts one write exactly when both calls succeed and the hash differs, and otherwise leaves every owned object as it is |
| Quiescence.HStoreRewritesExactly | internal/controller/add_hstore.go:22-63 | on a settled part the HStore step writes exactly when the record is not read, the resource's own count hashes differently, and the two calls after it succeed |
| Quiescence.GatewayRewritesExactly | internal/controller/add_geteway.go:20-62 | on a settled part the gateway step writes exactly when HServer's port is not read, the default port hashes differently, and the two calls after it succeed |
| Quiescence.HStorePartExactly | internal/controller/add_hstore.go:22-63 | when the HStore step goes on, its part is settled exactly when it was told the count |
| Quiescence.GatewayPartExactly | internal/controller/add_geteway.go:20-62 | when the gateway step goes on, its part is settled exactly when it was told the port |
| Quiescence.PassRewritesExactly | internal/controller/hstreamdb_controller.go:104-137 | a pass over a settled cluster writes exactly when it gets to one of those two steps and that step rewrites |
| Quiescence.PassesRewriteExactly | internal/controller/hstreamdb_controller.go:104-137 | any number of passes over a settled cluster leave every owned object as it is if and only if none of them rewrites |
| Quiescence.PassSettlesExactly | internal/controller/hstreamdb_controller.go:104-137 | a done pass leaves every part in place exactly when those two steps were told what they need |
| Quiescence.QuiescentExactly | internal/controller/utils.go:180-182 | after such a done pass, any number of passes on the same resource write nothing if and only if none of them rewrites, whatever fails or happens |
| Misreads.FailedPortReadRewrites | internal/controller/add_geteway.go:147-168 | for every simple settled resource: with only the read of HServer's port failing, the pass writes the gateway again |
| Misreads.FailedShardReadRewrites | internal/controller/add_hstore.go:174-187 | the same for HStore and the read of the shard record |
| Misreads.PortReadBreaksQuiescence | internal/controller/add_geteway.go:147-168 | a concrete settled resource, hash and tape where that happens |
| Misreads.ShardReadBreaksQuiescence | internal/controller/add_hstore.go:174-187 | a concrete settled resource, hash and tape where that happens |
| LivePorts.LivePortsAgree | internal/controller/add_services.go:18-84 | in every run, after a done pass that was told what it needs, the live Service and the live workload of HMeta, AdminServer, HStore and HServer list the same ports up to order, under the agreement conditions and if equal hashes imply equal ports up to order |
| Convergence.PassAdvances | internal/controller/hstreamdb_controller.go:87-136 | an undisturbed pass is done with Ready stored, or lowers the rank of missing milestones |
| Convergence.BlockedDrops | internal/controller/bootstrap_hstore.go:34-66 | a pass that ends early has just reached a milestone it had not reached |
| Convergence.RankAfter | internal/controller/hstreamdb_controller.go:87-136 | after n undisturbed passes without a done one the rank has dropped by n |
| Convergence.Converges | internal/controller/hstreamdb_controller.go:87-136 | from any state, among five undisturbed passes over an unedited resource that can be built one is done, and Ready is stored |
| NeverReady.NeverReadyNeverDone | internal/controller/bootstrap_hstore.go:71-91 | in every run where no HStore replica is ever ready there is no bootstrap, HStoreReady is never stored and no pass is done; and so for HServer and its init |
| Operator.Reconciler.CreateOrUpdate | internal/controller/add_services.go:88-120 | get, compare the hashes, create or update |
| Operator.Reconciler.UpdateStatus | internal/controller/update_hmeta_status.go:55-57 | the status write: it commits exactly when no fault occurs and the copy is current |
| Operator.Reconciler.ReconcileLogDeviceConfig | internal/controller/logdevice_config.go:33-100 | the new state and verdict are those of the step |
| Operator.Reconciler.ReconcileServices | internal/controller/add_services.go:18-84 | the new state and verdict are those of the step |
| Operator.Reconciler.ReconcileHMeta | internal/controller/add_hmeta.go:21-64 | the new state and verdict are those of the step |
| Operator.Reconciler.ReconcileHMetaStatus | internal/controller/update_hmeta_status.go:16-59 | the new state and verdict are those of the step |
| Operator.Reconciler.ReconcileAdminServer | internal/controller/add_admin_server.go:30-65 | the new state and verdict are those of the step |
| Operator.Reconciler.GetNShard | internal/controller/add_hstore.go:174-187 | the recorded count, or the resource's if it cannot be read |
| Operator.Reconciler.ReconcileHStore | internal/controller/add_hstore.go:22-63 | the new state and verdict are those of the step |
| Operator.Reconciler.CheckPodRunningStatus | internal/controller/bootstrap_hstore.go:71-113 | the ready count if it is positive and at least what the live workload asks for |
| Operator.Reconciler.GetMetadataReplication | internal/controller/bootstrap_hstore.go:41-46 | the setting, or the recommended replication if it is absent or more than the replicas |
| Operator.Reconciler.ReconcileBootstrapHStore | internal/controller/bootstrap_hstore.go:19-69 | the new state and verdict are those of the step |
| Operator.Reconciler.ReconcileHServer | internal/controller/add_hserver.go:23-58 | the new state and verdict are those of the step |
| Operator.Reconciler.ReconcileBootstrapHServer | internal/controller/bootstrap_hserver.go:16-57 | the new state and verdict are those of the step |
| Operator.Reconciler.FindHServerPort | internal/controller/add_geteway.go:147-168 | the port read off the live HServer, or the default |
| Operator.Reconciler.ReconcileGateway | internal/controller/add_geteway.go:20-62 | the new state and verdict are those of the step |
| Operator.Reconciler.ReconcileConsole | internal/controller/add_console.go:44-86 | the new state and verdict are those of the step |
| Operator.Reconciler.IsAllReady | internal/admin/types.go:73-85 | whether there is a node and every node is reachable, in any order of visiting |
| Operator.Reconciler.RecordNodes | internal/controller/update_hmeta_status.go:40-48 | the loop rebuilds the recorded nodes |
| Operator.Reconciler.CheckComponentsReady | internal/controller/update_status.go:36-61 | the component checks in either order of the Go map |
| Operator.Reconciler.CheckAllReady | internal/controller/update_status.go:63-100 | Ready becomes true or false by whether every listed condition is true |
| Operator.Reconciler.ReconcileStatus | internal/controller/update_status.go:16-34 | the new state and verdict are those of the step |
| Operator.Reconciler.ProcessRequeue | internal/controller/requeue.go:31-58 | a conflict becomes a requeue after at least a second, any other error stays an error |
| Operator.Reconciler.SubReconcile | internal/controller/hstreamdb_controller.go:104-137 | the loop over the twelve steps with its early exit and delayed requeue ends as the pass does |
| Operator.Reconciler.Reconcile | internal/controller/hstreamdb_controller.go:75-102 | one call does one pass |
| Operator.Reconciler.Work | internal/controller/hstreamdb_controller.go:75-102 | the worker's passes are the runs the theorems speak about |

## Left out

- The Kubernetes client, its cache, and the admin client: their results are the ticks of the tape. The Get of an owned object is assumed current.
- Defaulting and validation by the API server, and owner references: an owned object is stored as it was written.
- What is only copied into a pod template (images, probes, affinity, volumes, volume claims, sidecars): kept as one text that takes part in equality and in the hash. Sidecars are not searched for HServer's port, and the mounts the templates list are the shard mounts only.
- The text of the LogDevice configuration: the model keeps the three inputs it is written from.
- The merging of labels and annotations when a Service is updated is proved about `mergeMap` alone; the pipeline writes the whole object.
- RecordNodes: the order of the HMeta nodes in the status, which follows a Go map, is not modelled; they are kept by node id.
- The list of conditions inside the pipeline: there they are the map that `SetsOneTruth` says the list stands for. Reasons, messages and times live in `Conditions.dfy`.
- Aliasing of slices with spare capacity: `append` always yields a new list.
- A status write that changes nothing still raises the version; in Kubernetes it would not, which leaves fewer stale copies.
- Bytes: texts are sequences of characters, and the parser looks only at `-` and `=`. Order by character is the order of UTF-8 bytes.
- HStoreAndAdminServerAgree: one way only; the exact condition is `PortsAgree`.
- CommandLineComposes: for a resource name that is not empty and starts with neither `-` nor `=`, as every Kubernetes name does.
- ServerIsTold, ServerIsToldNames, ServerIsToldMeta, ListedIsTold: for such a resource name, as they read the same command line.
- HMetaIsTold: with a negative replica count it says nothing of `--disco-config`, which is then lost with the rest of the defaults.
- Converges: every created workload is assumed up at the start of each of the five passes; for HStore and HServer, `NeverReadyNeverDone` is the other half.
- The Connector and ConnectorTemplate controllers, `mergePorts`, reflection in `structAssign`, logging, events and `cmd/main.go`: no hard property.
