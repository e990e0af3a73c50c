# Isotope: model and proofs

Isotope benchmarks a mesh with mock services. A *service graph* gives every service a script of
`sleep` and `call` commands and concurrent groups of them. The repository generates such graphs,
resolves their defaults, validates them, ships them to pods and executes them as a distributed
program. This project models these parts in Dafny and proves what they promise, for all inputs,
schedules and faults.

Run `dafny verify dfyconfig.toml` in this directory.

## What is modelled

**Running a graph.** `Execution` is a small-step machine. A request is a handler frame that walks the
script of its service; a call opens a frame at the callee; a concurrent group forks one task per
member. A scheduler choice names the member that moves, so a schedule is any interleaving of all
handlers and goroutines. `ErrorJoin` refines one join: `errs` is a pointer to a shared multierror, and
one append takes four separately interleaved steps, so that updates can be lost; `LostUpdates` says
exactly when, and in which order errors are kept. A fault oracle over call paths decides which calls are not delivered and which responses
are lost. `Evaluation` is the reference: a sequential recursive evaluation, indexed by call depth so
that it is defined on cyclic graphs too. `Refinement` shows that every schedule computes it. `History`
states what the log tells about every handler at every point of every run, `Attribution` to whom a call
is charged, which headers it carries and why a command failed, `ExecutorProperties` has the global
properties of runs, and `CallGraph` and `Deployment` say for which graphs a request is answered.
These are stated for one external request; `Fleet` carries them over to any number of requests in
flight. `Handler` holds the handler and its metrics in the form of their code, `Headers` the header
code, `PodSetup` the code by which a pod finds its service.

**Generating a graph.** `Tree` is the breadth-first queue of the generator over mutable records, with
the constants `NUM_LEVELS` and `NUM_BRANCHES` as arbitrary naturals. `Names` holds the name encoding,
`TreeShape` the shape of the result, `TreeRuns` what a request to the result does, and `TreeDocument`
follows the generated file through the converter and the ConfigMap to the running pods.

**Parsing and shipping a graph.** Documents are JSON value trees (the kinds of value of section 3 of
RFC 8259). `Decoding` says what the decoders compute as functions of the defaults in force, `Parsing`
has them in the form of their code over the package globals, `Layering` says how the layers of defaults
combine, and `Reading` what the texts of a document stand for and which error is reported. `Ambients` and `ParseThreads` treat concurrent parses over the shared globals, `NestedDefaults`
the points where the reading of defaults departs from its documentation. `Encoding` and
`RoundTrip` treat marshalling and the deployment round trip, `Validation` validation.

**The rest.** `Graphviz` is the translation to nodes and edges, `Rollout` the retry queue of the runner.

## Where the code departs from its documentation

- The repository's `README.md:200-201` says that defaults hold for omitted settings in all nested
  scopes. The default `requestSize` is not applied to the calls inside the `defaults` section's own
  script: the first pass completes them with the package's global. `NestedDefaults.NestedDefaultsFail`
  gives a document, `NestedDefaults.NestedDefaultsIff` the exact condition under which the code reads a
  document as documented.
- That read of the global is not protected by the mutex, so a parse that runs next to another one can
  pick up the other document's request size. `ParseThreads.NoInterference` and
  `ParseThreads.Interference` give the exact condition, `NestedDefaults.NestedInterference` a document,
  and `ParseThreads.OnlySizesDiffer` says that nothing but sizes of calls can be affected.
- The specification in the repository's `README.md:182-197` names the section `default`, and
  `README.md:268-272` names the size of a call `payloadSize`. The code reads `defaults` and `size` and
  ignores the other spellings (`NestedDefaults.DefaultKeyIsIgnored`,
  `NestedDefaults.PayloadSizeIsIgnored`).
- A service with `numReplicas: 0` is parsed as written, but its zero is dropped on marshalling and every
  pod reads one replica (`RoundTrip.ZeroReplicasAreLost`, `RoundTrip.ZeroReplicasExample`).
- When there are no resources, `runner/wait.py` still checks one with an empty name, because splitting
  an empty text gives one empty field (`Rollout.SplitsBackIffAny`).

## Model

| member | source | states |
|---|---|---|
| `ErrorJoin.StepKeepsInv` | service/pkg/srv/executable.go:89-96 | every interleaved step of an append keeps the join invariant: all lists come from distinct failed members, and a member that left has published |
| `ErrorJoin.StepEnabled` | service/pkg/srv/executable.go:89-98 | no member is ever blocked before its deferred Done ran |
| `ErrorJoin.EveryJoin` | service/pkg/srv/executable.go:81-100 | for any member results and any schedule, Wait returns nil iff every member succeeded, every reported error is some member's, and with failures between one and all of them are recorded |
| `ErrorJoin.WaitResult` | service/pkg/srv/executable.go:98-99 | the same from the invariant alone, for joins whose members are still deciding their results |
| `ErrorJoin.RecordedCount` | service/vendor/github.com/hashicorp/go-multierror/append.go:9-41 | the number of recorded appends lies between one and the number of failed members |
| `ErrorJoin.UpdatesCanBeLost` | service/pkg/srv/executable.go:93-95 | an instance with two members: the schedule in which both fail, both read nil, and one error is lost |
| `LostUpdates.RecordedExactly` | service/pkg/srv/executable.go:81-100 | for any member results with a failure, some complete run records n appends iff n lies between one and the number of failures |
| `LostUpdates.OneIsRecorded` | service/pkg/srv/executable.go:93-95 | in every group in which some member fails, some run keeps a single append and loses all others |
| `LostUpdates.NothingLostIff` | service/pkg/srv/executable.go:81-100 | no run of a group loses an error iff at most one member fails |
| `LostUpdates.SecondWriteWins` | service/vendor/github.com/hashicorp/go-multierror/append.go:9-41 | where two failing members read the existing list before either writes it, the first append is lost and the second stands behind the earlier ones |
| `LostUpdates.OneAfterTheOther` | service/pkg/srv/executable.go:88-98 | members that append one after the other, in any order, lose nothing: Wait returns the errors of all of them in that order |
| `Execution.TaskStaysOk` | service/pkg/srv/executable.go:18-100 | every step of a command keeps the state well formed, whatever the scheduler chose |
| `Execution.FrameStaysOk` | service/pkg/srv/handler.go:26-56 | the same for a handler, which never changes its service |
| `Execution.TaskCanMove` | service/pkg/srv/executable.go:81-100 | a command that has not returned can always move: every join completes |
| `Refinement.TaskAdvances` | service/pkg/srv/executable.go:18-100 | one step leaves result and total event count of the reference evaluation unchanged and uses up work |
| `Refinement.RunConserves` | service/pkg/srv/handler.go:45-55 | along every run, events logged plus events still to come are constant, and work falls with every step |
| `Refinement.EveryScheduleRefinesEval` | service/pkg/srv/handler.go:26-56 | schedule independence: every completed run has the status of the sequential evaluation and logs what it counts, on cyclic graphs too |
| `Refinement.AnyTwoSchedulesAgree` | service/pkg/srv/executable.go:18-100 | any two completed runs answer alike and log permutations of the same events |
| `Refinement.CompletesIffEvalDefined` | service/pkg/srv/handler.go:45-55 | some schedule completes a request iff the sequential evaluation is defined |
| `Refinement.NeverStuck` | service/pkg/srv/executable.go:81-100 | on any graph, a reachable state that has not answered can move |
| `Refinement.EveryRunTerminates` | service/pkg/srv/handler.go:45-55 | where the evaluation is defined, its work bounds the length of every run |
| `History.EveryEventOnce` | service/pkg/srv/executable.go:43-72 | at every reachable state no event is logged twice, so agreeing logs of completed runs are the same set of executed calls |
| `ExecutorProperties.StatusReflectsFaults` | service/pkg/srv/handler.go:45-55 | the root request ends in 500 iff some call of its call tree broke in transport or named no service, else in 200; for the other handlers see `History.EveryAnswer` |
| `ExecutorProperties.NothingUnresolved` | service/pkg/srv/executable.go:47-52 | when all calls are defined the "does not exist" branch is never taken, and only faulty calls break |
| `ExecutorProperties.ReliableMeansOk` | service/pkg/srv/handler.go:45-55 | with defined calls and reliable transport every completed request is answered with 200 |
| `ExecutorProperties.HeadersReachEveryRequest` | service/pkg/srv/header.go:26-35 | under a transport that on every hop meets the condition of `Headers.HopKeepsTrace`, every received request at every point of every run carries exactly the root's forwardable headers |
| `ExecutorProperties.IncomingMatchesOutgoing` | service/pkg/srv/prometheus/handler.go:71-81 | at every reachable state the incoming count of a service is its external requests plus all outgoing counts to it plus open calls plus lost responses; at the end no call is open |
| `ExecutorProperties.HandlerMeetsDemand` | service/pkg/srv/handler.go:45-55 | the sequential evaluation delivers exactly the structural demand of the call graph |
| `ExecutorProperties.ExactRequestCounts` | service/pkg/srv/handler.go:30-55 | on acyclic graphs with reliable transport, received plus still demanded requests are the structural demand at every step of every run, and a completed run delivered exactly that many |
| `ExecutorProperties.DemandStable` | service/pkg/srv/handler.go:45-55 | along a rank, demand is a plain recursion over calls: the depth it is taken at does not matter |
| `ExecutorProperties.AcyclicRunsTerminate` | service/pkg/srv/handler.go:45-55 | on acyclic graphs every run is finite, with a bound, and never stuck, whatever the transport does |
| `CallGraph.BoundedIffNoLongWalk` | service/pkg/srv/executable.go:53-56 | the recursive bound on nested calls means that no longer chain of calls exists |
| `CallGraph.AcyclicIffRanked` | convert/pkg/graph/validation.go:10-26 | a graph whose calls are all defined has the rank that termination and exact counts assume iff it has no cycle |
| `History.TaskStepTells` | service/pkg/srv/executable.go:18-100 | every step of a command keeps state and log in agreement: what ended, what broke, and which events are new |
| `History.StepsRunInOrder` | service/pkg/srv/handler.go:45-53 | at every reachable state, completed or not, if any handler at any depth got to a step, then all earlier steps were executed in full and nothing in or below them broke |
| `History.EveryAnswer` | service/pkg/srv/handler.go:45-55 | at every reachable state, every handler that answered had received its request as the same service, said 500 iff something strictly below it broke, and executed exactly a prefix of its script, the whole of it for 200 |
| `History.AllMembersRun` | service/pkg/srv/executable.go:88-98 | once a handler has answered, every call among the members of a group it started has ended in an answer or a failure, whatever the other members returned |
| `Attribution.CallersAreRight` | service/pkg/srv/executable.go:57 | at every reachable state, under any faults, every outgoing request that was counted names as its caller the service of the innermost request under which it was made |
| `Attribution.HeadersAreForwarded` | service/pkg/srv/handler.go:46 | at every reachable state, under any transport, a nested request carries the forwardable headers of the innermost request above it plus what the transport adds, and nothing else |
| `Attribution.FailuresAreReal` | service/pkg/srv/executable.go:43-72 | at every reachable state, every failure that a finished command holds, at any depth, names the service of a call at or below it that did not exist, broke, or answered 500 |
| `Attribution.OutgoingCounts` | service/pkg/srv/prometheus/handler.go:77-81 | in a completed run with defined calls and reliable transport, the outgoing count from one service to another is the incoming count of the first times the number of calls to the second in its script |
| `Handler.Metrics.constructor` | service/pkg/srv/prometheus/handler.go:21-52 | counters start empty and agree with an empty log |
| `Handler.Metrics.RecordRequestReceived` | service/pkg/srv/prometheus/handler.go:71-73 | one more incoming request for the pod's service, other counters unchanged, counters still agree with the log |
| `Handler.Metrics.RecordRequestSent` | service/pkg/srv/prometheus/handler.go:77-81 | one more outgoing request to the destination, other counters unchanged |
| `Handler.Metrics.RecordResponseSent` | service/pkg/srv/prometheus/handler.go:85-90 | one more response with the code, other counters unchanged |
| `Handler.ServeHTTP` | service/pkg/srv/handler.go:26-56 | the loop with early return answers and counts as the reference evaluation says |
| `Handler.Execute` | service/pkg/srv/executable.go:18-35 | the case split over commands fails and counts as the reference evaluation says |
| `Handler.ExecuteRequest` | service/pkg/srv/executable.go:43-72 | an unknown service, a broken call, a lost response and a 500 are errors; only an answered call is counted as sent, under its caller (see `Attribution.CallersAreRight`) |
| `Handler.ExecuteConcurrent` | service/pkg/srv/executable.go:81-100 | the loop over members fails iff some member fails, and runs them all |
| `Headers.ForwardableSet` | service/pkg/srv/header.go:7-24 | the initialisation loop builds the set of forwardable names |
| `Headers.ExtractForwardableHeader` | service/pkg/srv/header.go:26-35 | in any iteration order, the result has exactly those of the seven trace headers that the request has, with their values |
| `Headers.CopyHeader` | service/pkg/srv/request.go:39-43 | every given header is set on the request and the others are kept |
| `Headers.BuildRequest` | service/pkg/srv/request.go:28-37 | a new request carries exactly the given headers |
| `Headers.HopKeepsTrace` | service/pkg/srv/handler.go:46 | one hop keeps the trace headers iff the transport overrides and invents none of them |
| `PodSetup.ExtractService` | service/pkg/srv/graph.go:66-78 | the first service with the name, or an error iff there is none |
| `PodSetup.ExtractServiceTypes` | service/pkg/srv/graph.go:82-89 | exactly the defined names are keys, and the last service with a name decides its type |
| `Deployment.ValidMeansClosed` | service/pkg/srv/executable.go:48-52 | on a valid graph every call a pod can meet names a service in its type map |
| `Deployment.ParsedGraphRuns` | convert/pkg/graph/unmarshal.go:18-34 | whatever document the pods parsed, no run meets an undefined service, and with reliable transport every answer of every handler is 200 |
| `Deployment.CompletesIffBounded` | service/pkg/srv/handler.go:45-55 | with defined calls and reliable transport, a request can complete iff the call chains from its service are bounded |
| `Deployment.CompletesIffNoLasso` | service/pkg/srv/handler.go:45-55 | with defined calls and reliable transport, a request can complete iff no chain of calls from its service meets a service twice |
| `Deployment.CyclesNeverAnswer` | service/pkg/srv/executable.go:53-56 | with defined calls and reliable transport, no schedule answers a request to a service on a cycle |
| `Deployment.ValidationAllowsCycles` | convert/pkg/graph/validation.go:10-26 | some valid graph has a cycle |
| `Fleet.EachRunsAlone` | service/pkg/srv/handler.go:26-56 | with any number of external requests in flight, each runs as it would alone under the scheduler's choices for it |
| `Fleet.AnyTwoFleetsAgree` | service/pkg/srv/handler.go:26-56 | neither the scheduler nor the other requests change the answer or the events of a completed request |
| `Fleet.FleetConserves` | service/pkg/srv/prometheus/handler.go:71-81 | the counter balance of a service holds over all requests in flight, at every reachable state |
| `Fleet.FleetCounts` | service/pkg/srv/handler.go:30-55 | on acyclic graphs with reliable transport, when all requests are answered, a service has received the sum of their demands |
| `Fleet.FleetNeverStuck` | service/pkg/srv/executable.go:81-100 | an unanswered request can always move, whatever the others do |
| `Names.DecimalInjective` | create_tree_topology.py:40 | decimal texts of positions are injective |
| `Names.DecimalReads` | create_tree_topology.py:40 | the decimal text of a number has digits only, no leading zero, and reads back as that number |
| `Names.NameInjective` | create_tree_topology.py:41 | dash-joined decimal paths are injective |
| `Tree.RootAndSubtrees` | create_tree_topology.py:18 | the geometric sum of NUM_SERVICES: a tree is its root plus `branches` trees one level shorter |
| `Tree.ChildrenFillTheTree` | create_tree_topology.py:31-38 | the first child of the first service beyond a tree is the first service beyond the tree one level taller |
| `Tree.NeverTruncated` | create_tree_topology.py:34-38 | a service that gets any children gets all of them: the minimum never truncates |
| `Tree.QueueGrows` | create_tree_topology.py:31-38 | popleft never meets an empty queue, and the number of records grows by a whole group or not at all |
| `Tree.AddChildren` | create_tree_topology.py:36-47 | the inner loop creates distinct new records with the right names and queues them last, in order |
| `Tree.Expand` | create_tree_topology.py:35-49 | the popped record, already in the output, gets its script in place; all other records stay as they were |
| `Tree.Build` | create_tree_topology.py:23-49 | the queue loop yields the records in level order, each completed, for any layout of names |
| `Tree.Generate` | create_tree_topology.py:23-49 | for all branch and level counts the loop builds the heap-numbered complete tree: service i calls services B*i+1 to B*i+B; for its names see `TreeShape.NamesFollowTheTree` |
| `Tree.FirstChildIs` | create_tree_topology.py:37-47 | heap numbering in closed form |
| `TreeShape.NamesDistinct` | create_tree_topology.py:39-44 | generated names are pairwise distinct |
| `TreeShape.RootIsNamed` | create_tree_topology.py:24-28 | the root is svc-0 |
| `TreeShape.NamesFollowTheTree` | create_tree_topology.py:37-44 | a child is named after its parent, with a dash and the numeral that reads back as its position among its siblings |
| `TreeShape.Levels` | create_tree_topology.py:14-18 | level k holds exactly B^k services, their paths have length k+1, and no path is longer than NUM_LEVELS |
| `TreeShape.EveryNonRootCalledOnce` | create_tree_topology.py:46-49 | all calls in output order are the names of services 1, 2, 3, ...: every service but the root is called once, the root never |
| `TreeShape.CallsPointForward` | create_tree_topology.py:46-49 | a service only calls services that come later, so there is no cycle |
| `TreeShape.TreeIsValid` | convert/pkg/graph/validation.go:14-46 | every generated topology passes validation |
| `TreeRuns.EveryServiceReachable` | create_tree_topology.py:28-49 | a chain of calls leads from svc-0 to every generated service |
| `TreeRuns.TreeTerminates` | create_tree_topology.py:28-49 | runs of generated topologies are bounded and never stuck, whatever the transport does |
| `TreeRuns.DemandIsHits` | create_tree_topology.py:65-66 | the demand that one service puts on another is one or zero, by descent |
| `TreeRuns.OneRequestPerService` | create_tree_topology.py:23-62 | one request at svc-0 completes under every schedule (runs are bounded, none is stuck), is answered with 200 and has then delivered exactly one request to every service |
| `TreeDocument.WriteDocument` | create_tree_topology.py:51-62 | the dumped document has the three defaults and one item per record, in output order |
| `TreeDocument.DocumentIsTree` | create_tree_topology.py:51-66 | the converter parses the dumped document as the complete tree with the file's defaults |
| `TreeDocument.GeneratedServices` | create_tree_topology.py:23-66 | the parsed services field by field: HTTP, one replica, 128 bytes, the root alone an entrypoint, and one concurrent step that calls the children with 128 bytes each, or no script |
| `TreeDocument.TreeDeploys` | convert/pkg/kubernetes/kubernetes.go:133-149 | every pod parses the marshalled tree as the same tree, if the text of 128 bytes is exact |
| `TreeDocument.GeneratedTopologyRuns` | service/pkg/srv/graph.go:51-63 | from generator through converter, ConfigMap and pods: a request to the running topology completes under every schedule and serves one request per service |
| `Validation.Validate` | convert/pkg/graph/validation.go:14-26 | if a problem is returned, it stands at the first place of the depth-first order where anything is wrong, and an undefined call is reported by the name it calls; otherwise nothing is wrong anywhere |
| `Validation.ValidateCommands` | convert/pkg/graph/validation.go:28-46 | the same for one script: every call before the reported place is defined and every group closed before it is flat, a group being judged when it is closed, after its members |
| `Validation.ReportIsRight` | convert/pkg/graph/validation.go:14-46 | the first problem of the depth-first order is the report at the first bad place of the first script that has one |
| `Validation.ContainsConcurrentCommand` | convert/pkg/graph/validation.go:48-55 | found iff some command is a group |
| `Validation.ValidationIsExact` | convert/pkg/graph/validation.go:10-26 | a graph is accepted iff every call at any depth names a defined service and no group contains another |
| `Parsing.Globals.constructor` | convert/pkg/graph/svc/unmarshal.go:10-13 | the package globals as they are initialised |
| `Parsing.Globals.UnmarshalRequest` | convert/pkg/graph/script/request_command.go:25-45 | a text sets the name only, an object its fields, both over the global default |
| `Parsing.Globals.UnmarshalCommand` | convert/pkg/graph/script/command.go:60-90 | arrays are groups; one key `sleep` or `call`; other keys and several keys are errors |
| `Parsing.Globals.ParseCommands` | convert/pkg/graph/script/command.go:42-55 | the list in order, or the first error |
| `Parsing.Globals.UnmarshalScript` | convert/pkg/graph/script/script.go:20-27 | a list of commands, or none for null |
| `Parsing.Globals.UnmarshalService` | convert/pkg/graph/svc/unmarshal.go:17-29 | the fields over the global default service; an empty name is an error |
| `Parsing.Globals.UnmarshalServiceField` | convert/pkg/graph/svc/unmarshal.go:19-23 | one field in place: a custom decoder that fails stops the decoding, a plain field of the wrong type is noted |
| `Parsing.Globals.UnmarshalServices` | convert/pkg/graph/unmarshal.go:40-47 | the second pass decodes the services under the globals in force |
| `Parsing.Globals.UnmarshalMetadata` | convert/pkg/graph/unmarshal.go:18-23 | the first pass decodes the defaults section over the built-in defaults, with calls completed by the global |
| `Parsing.Globals.ParseWithDefaults` | convert/pkg/graph/unmarshal.go:36-96 | the pass runs under the given defaults, and the globals are restored on success and on error |
| `Parsing.Globals.UnmarshalGraph` | convert/pkg/graph/unmarshal.go:16-34 | the stateful two-pass parse equals the pure one and leaves the globals as they were |
| `Layering.ParseIsLayered` | convert/pkg/graph/unmarshal.go:60-96 | field by field, a parsed service has its own value, or that of the defaults section, or the built-in one; calls in its own script take the section's request size, calls in the section's script the ambient one |
| `Reading.CommandRead` | convert/pkg/graph/script/command.go:42-90 | a text of a command is accepted iff it means a command, and decodes to that one: lists are groups, one key `sleep` or `call`, calls as a name or as name and size over the default |
| `Reading.ServiceRead` | convert/pkg/graph/svc/unmarshal.go:17-29 | a service is accepted iff every field stands for a value of its kind in its range and the name is not empty, and has these values |
| `Reading.DocumentRead` | convert/pkg/graph/unmarshal.go:16-96 | a parsed document has defaults that are the texts of its defaults section over the built-in values, and services that are the texts of their own fields over these defaults |
| `Reading.OtherDocuments` | convert/pkg/graph/unmarshal.go:16-34 | null is the empty graph, any other document that is no object is rejected |
| `Reading.FirstCommandError` | convert/pkg/graph/script/command.go:42-55 | a list of commands fails as its first failing element does |
| `Reading.ServiceErrors` | convert/pkg/graph/svc/unmarshal.go:17-29 | which error a rejected service reports: its first field whose decoder fails, else a mistyped field, else the empty name |
| `Reading.FirstServiceError` | convert/pkg/graph/unmarshal.go:40-47 | the list of services fails as its first failing element does |
| `Reading.FirstDefaultsError` | convert/pkg/graph/unmarshal.go:60-70 | the defaults section fails as its first field does whose decoder fails, whatever was mistyped before it |
| `Reading.FieldsWritten` | convert/pkg/graph/svc/service.go:11-34 | exactly the fields with a non-empty value are written, each under its key |
| `Ambients.ScriptSizes` | convert/pkg/graph/script/request_command.go:25-45 | a script means the same under two default sizes iff every call at any depth names its size |
| `Ambients.MetadataAlike` | convert/pkg/graph/unmarshal.go:18-23 | two first passes over any document fail alike, or differ in sizes of calls in the default script only |
| `Ambients.ParseAlike` | convert/pkg/graph/unmarshal.go:16-34 | on any document at all, ambient defaults can only change sizes of calls, never whether and how the parse fails |
| `Ambients.IgnoresAmbientIffRobust` | convert/pkg/graph/unmarshal.go:16-34 | a document parses alike under every ambient default iff its default script names all sizes or every service has its own script |
| `ParseThreads.StepKeepsInv` | convert/pkg/graph/unmarshal.go:73-96 | every step of every thread keeps globals, saved values and looked-up defaults consistent with the mutex |
| `ParseThreads.GlobalsAreProtected` | convert/pkg/graph/unmarshal.go:73-96 | in every reachable state: mutual exclusion, original globals whenever the mutex is free, a second pass sees its own defaults, and no deadlock |
| `ParseThreads.NoInterference` | convert/pkg/graph/unmarshal.go:16-96 | under any interleaving of any number of threads, a robust document is parsed as if alone |
| `ParseThreads.Interference` | convert/pkg/graph/script/request_command.go:25-27 | for every other document that parses, some schedule next to one other document changes its result |
| `ParseThreads.OnlySizesDiffer` | convert/pkg/graph/unmarshal.go:16-96 | on any document, under any interleaving, a thread ends with the result it has alone up to sizes of calls; documents that fail alone fail alike |
| `NestedDefaults.NestedDefaultsIff` | convert/pkg/graph/unmarshal.go:18-23 | the section's own request size completes the calls of the section's script, as documented, iff the document is robust or that size is zero |
| `NestedDefaults.NestedDefaultsFail` | convert/pkg/graph/script/request_command.go:25-29 | a document that parses and is not robust: its call gets size 0 where the documentation says 1 |
| `NestedDefaults.NestedInterference` | convert/pkg/graph/script/request_command.go:25-29 | the same document loses its isolation under some schedule |
| `NestedDefaults.DefaultKeyIsIgnored` | convert/pkg/graph/unmarshal.go:60-62 | a document without the key `defaults` has the built-in defaults, whatever other keys it has |
| `NestedDefaults.PayloadSizeIsIgnored` | convert/pkg/graph/script/request_command.go:11-15 | the key `payloadSize`, wherever it stands, changes nothing about a call; without `size` the call keeps the default size |
| `Encoding.CommandsToMarshallable` | convert/pkg/graph/script/command.go:16-26 | the loop encodes all commands in order |
| `Encoding.CommandToMarshallable` | convert/pkg/graph/script/command.go:28-40 | the case split by command kind, groups recursively |
| `RoundTrip.CommandRoundTrip` | convert/pkg/graph/script/command.go:28-90 | a command at any nesting depth decodes to itself iff its sizes and durations survive their text, whatever the default request |
| `RoundTrip.ServiceRoundTrip` | convert/pkg/graph/svc/service.go:11-34 | a service decodes to itself over the built-in defaults iff it has replicas and its sizes and durations are exact: the effect of `omitempty` |
| `RoundTrip.ParsedIsWellTyped` | convert/pkg/graph/unmarshal.go:16-34 | whatever is parsed is valid, named and in range |
| `RoundTrip.DeploymentRoundTrip` | convert/pkg/kubernetes/kubernetes.go:133-149 | for every parsed document, what every pod parses from the ConfigMap is the same graph, and valid again, iff replicas are non-zero and all sizes and durations are exact |
| `RoundTrip.ZeroReplicasAreLost` | convert/pkg/graph/svc/service.go:19 | a service with zero replicas comes back as the same service with one replica iff its sizes and durations are exact |
| `RoundTrip.ZeroReplicasExample` | convert/pkg/graph/svc/service.go:19 | a document that the converter parses with zero replicas and every pod with one |
| `Graphviz.NonConcurrentCommandToString` | convert/pkg/graphviz/graphviz.go:157-169 | the text SLEEP with the duration, or CALL with the quoted name and the size; a group is an error |
| `Graphviz.ExecutableToStringSlice` | convert/pkg/graphviz/graphviz.go:171-196 | one line per command of the step in order; fails iff the step nests groups |
| `Graphviz.GetEdgesFromExe` | convert/pkg/graphviz/graphviz.go:111-130 | one edge per call of the step at any depth, in order |
| `Graphviz.ToGraphvizNode` | convert/pkg/graphviz/graphviz.go:132-155 | the node and the edges of a service; fails iff its script nests groups |
| `Graphviz.ServiceGraphToGraph` | convert/pkg/graphviz/graphviz.go:41-58 | one node per service, with its name, type, error rate, response size and lines each in its own field, and the edges of all services; fails iff some script nests groups |
| `Graphviz.EdgesAreCalls` | convert/pkg/graphviz/graphviz.go:41-58 | edges and calls are in order-preserving bijection: at the places of the calls of a step stand edges with that source, that step and these targets |
| `Graphviz.EdgeOfCall` | convert/pkg/graphviz/graphviz.go:111-130 | the edge of a call leaves the calling service at the step of the call and enters the called service |
| `Graphviz.ValidTranslates` | convert/pkg/graphviz/graphviz.go:41-58 | on valid graphs the translation succeeds |
| `Graphviz.EdgesJoinNodes` | convert/pkg/graphviz/graphviz.go:75-107 | on valid graphs every edge starts at an existing port of a node and ends at a node |
| `Graphviz.EdgesMatchLines` | convert/pkg/graphviz/graphviz.go:132-155 | a step has as many edges as its label has CALL lines |
| `Rollout.SplitsBackIffAny` | runner/wait.py:40 | the names waited for are the names printed iff any were; an empty output gives one empty name |
| `Rollout.UntilRolloutsComplete` | runner/wait.py:40-59 | from the printed text on: the first checks are those of the printed names in order, every retry stands behind everything queued before it, each name is resolved exactly once, and the loop makes exactly as many checks as names plus closed watches |
| `Rollout.RetriedInTurn` | runner/wait.py:42-59 | a resource whose watch was closed is checked again only after everything that was waiting, each once and in order |
| `Rollout.AttemptsSplit` | runner/wait.py:41-59 | a resource is checked as often as it is resolved plus as often as its watch was closed |
| `Rollout.EndsIffSettled` | runner/wait.py:42-59 | the queue is empty after k iterations iff at least n of the first k checks were not cut short |
| `Rollout.EndsAfterClosedWatches` | runner/wait.py:43-59 | with finitely many closed watches the queue becomes empty with iteration n plus the closed watches so far, and not before |

## Left out

- Byte-level JSON and YAML lexing, case folding of keys: documents are value trees. A key that occurs twice in one command object counts as two keys here, where a Go map would merge them. Statements about layering, isolation and the meaning of texts (`Layering`, `Ambients`, `ParseThreads`, `Reading`) assume documents without repeated keys.
- The text codecs of sizes, durations and percentages: they are parameters, and their exactness is a hypothesis where it matters. Error rates are reals and keep their value as JSON numbers.
- Nil and empty scripts are the same sequence.
- Several external requests share nothing but the counters; connection pools and other resources that requests to one pod compete for are not modelled.
- Pods, DNS, connection reuse, HTTP retries, redirects and response bodies: a call is delivered and answered, not delivered, or answered with the response lost. A lost response surfaces after the callee has answered; a caller that gives up while its callee goes on is not modelled.
- Refinement.TaskAdvances: a fork creates all tasks of a group in one step, because they are independent until they return; a response and the counter of its status are one event.
- ErrorJoin.EveryJoin: steps are sequentially consistent; torn interface writes, weak memory, and the sharing of backing arrays between appends of one list are not modelled.
- Handler.ExecuteConcurrent: runs the members in list order; that the order does not matter is proved on the machine, not on this method.
- Handler.Metrics.RecordRequestSent: the histogram of request sizes is not modelled, only the counter.
- Handler.Metrics.RecordResponseSent: the histograms of durations and response sizes are not modelled, only the number of observations for each code.
- Parsing.Globals.UnmarshalGraph: one thread with the mutex as a flag; interleavings are the subject of ParseThreads, where the validation after the unlocking is part of the unlocking step.
- ErrorRate, ResponseSize and service type at run time: the handler does not use them.
- Panics and `log.Fatalf`, in particular for commands of an unknown Go type.
- Kubernetes manifests other than the marshalled graph, Fortio, the command line, and the DOT text template.
- The runner's shell code other than the rollout queue: the printed names and the outcome of each check are parameters.
- Tree.Generate: with zero levels the original still names its entrypoint but writes no service; statements about running the tree assume at least one level.
