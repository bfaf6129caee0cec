# iox2-jsonrpc: a verified model

This project models iox2-jsonrpc as one small distributed system and proves what its
clients, operators and controllers can rely on.

- A **controller** is a state and a list of bindings, each with a validator and a step
  that may change the state, return, raise, or produce a value that cannot be dumped.
  `Endpoint` puts the JSON-RPC endpoint in front of it; `Camera` is the example controller.
- A **server** (`Ports`, `Server`, `Conservation`, `Lifecycle`, `Serving`) takes its ports with retries, drains
  requests in cycles with faults anywhere, and closes. `log` is what iceoryx2 sees of it.
- A **registry** (`Names`, `Discovery`, `Registry`) is built from listing rounds, loads
  descriptors, numbers requests and polls for responses.
- The **gateway** (`Gateway`, `System`, `Interleavings`, `Histories`, `Guarantees`,
  `Deployment`, `Counters`, `Numbering`) is shared by any
  number of threads. `System` is a state machine whose steps are the atomic steps of the
  code: each look at the registry, the read, write and re-read of the unlocked counter,
  the send, each poll, each lock section of a refresh, and each exchange of a server. A run is any
  sequence of such steps; `Interleavings.StateOk` is the invariant of all of them, and
  `Histories` names the earlier steps that account for what a run's last state holds.
- Messages travel as bytes (`Json`, `Messages`): compact JSON text in UTF-8, with a reader
  that is proved to undo the writer.

The classes (`ControllerRpcEndpoint`, `CameraController`, `Iox2JsonRpcServer`,
`DiscoveredRpcService`, `Iox2RpcRegistry`, `DynamicRpcGateway`) keep the source's fields
and loops. Their methods are proved against functions on values, and the theorems are
about those functions. `ServeIsOneDrainStep` ties the server steps of `System` to the
server class.

Main results: `RemoteRefinesLocal` (an answered remote call is a local call, in every
interleaving), `AnswersRespectRealTime` with `ServersAreSequential` (linearizability),
`ForwardedToUniqueMatch`, `RefusalMeansNothingRan`, `RefreshesAccount`,
`RegistriesAreAllOrNothing`, `ServedLife` and `EverythingIsGivenBack` (conservation over a
server's life), `DrainIsSequential`, `TurnsFollowTheScript`, `CleanTurnsServeAll`, `RefusedRequestsAreInvisible`, `CollectIsExact`,
`SentCapturesAreNumbered`, `DecodeUndoesEncode`, `NamedControllerAnswers`,
`NumbersDistinctIff`.

Where a desirable claim is false of the code, the model keeps the code, and the exact
condition or a run that shows the failure is proved:

- An interrupt while the constructor creates its servers leaks every handle obtained so
  far, because only `Exception` is caught: `FailedConstructionReleasesIff`.
- `call_rpc` reports every exception as an unknown method, so it can do so after the
  controller has run: `RpcTimeoutHidesTheStep`, `CameraCapturesBehindATimeout`. That happens
  exactly to a `call_rpc` that stopped waiting and whose request the controller accepts:
  `RefusalMeansNothingRan`.
- A factory that returns None between the two looks at the registry ends a call that had
  found its service: `NoneEndsTheCall`, `NoneBetweenTheLooks`. It happens exactly when None
  is the latest successful commit at the second look: `NoRegistryIff`; with any factory that
  never returns None it cannot happen: `NoRegistryNeedsNone`.
- Two calls can put the same number on the wire: through one registry
  (`WireNumbersCanCollide`), or through two, with a refresh between them
  (`WireNumbersRepeatAfterRefresh`). Once nobody is left taking a number, the numbers of one
  registry repeat exactly when some thread has written its counter while another was between
  its two readings: `NumbersDistinctIff`, and on the wire `WireNumbersDistinctIff`. Answers
  are kept apart all the same, by the pending handle.
- A comma in a method name breaks the advertised method list:
  `AdvertisedListSurvivesIff`, `LoadingHonestServerChangesNothingIff`,
  `LookupsSurviveLoadingIff`.
- A dot in a controller name breaks the routes derived without a descriptor:
  `LocalNameRecoveredIff`, `RoutesWithoutDescriptorIff`.

## Model

| member | source | states |
|---|---|---|
| Names.AdvertisedListSurvivesIff | iox2_jsonrpc/iceoryx_server.py:90-94 | the comma-joined method list gives back the list it was built from if and only if no qualified name contains a comma |
| Names.QualifiedSplitIsUnique | iox2_jsonrpc/controller.py:91-92 | a qualified name has one reading when local names have no dot, even if controller names do |
| Names.LocalNameRecoveredIff | examples/webapi.py:198-201 | cutting at the first dot finds the local name if and only if the controller name has no dot |
| Names.AfterFirstDotCuts | examples/webapi.py:198-201 | cutting leaves what follows the first dot, or the whole name if it has none |
| Names.DropEmptyFilters | iox2_jsonrpc/iceoryx_registry.py:85 | exactly the empty pieces are dropped, and the others keep their order |
| Json.ReadWritten | iox2_jsonrpc/endpoint.py:23-36 | reading undoes writing for every JSON value, whatever non-digit text follows it |
| Json.DecodeUndoesEncode | iox2_jsonrpc/endpoint.py:23-36 | every JSON value survives the trip through its UTF-8 bytes |
| Json.WriteIsText | iox2_jsonrpc/endpoint.py:31-36 | what is written is the text of section 2 of RFC 8259: literals, decimal numbers, escaped strings, comma-separated lists and members |
| Json.EncodedCharIsUtf8 | iox2_jsonrpc/endpoint.py:31-36 | every character becomes the bytes of section 3 of RFC 3629 |
| Json.DecodeIff | iox2_jsonrpc/endpoint.py:23-36 | bytes are read as a value if and only if they are the UTF-8 of its text, with nothing around it |
| Messages.LookupIff | iox2_jsonrpc/models.py:23-40 | a lookup finds the last value of a repeated key, and nothing if and only if no field has the key |
| Messages.RequestReadIff | iox2_jsonrpc/models.py:8-27 | a value is read as a request if and only if it has a method, the version, id and parameters of the right kinds if at all, and no other field |
| Messages.ResponseReadIff | iox2_jsonrpc/models.py:30-46 | the same for responses and their error objects, which in addition never hold both a result and an error |
| Messages.RequestRoundTrip | iox2_jsonrpc/models.py:23-27 | every request is read back as sent |
| Messages.ResponseRoundTripIff | iox2_jsonrpc/models.py:36-46 | a response is read back as sent if and only if it does not hold both a result and an error |
| Sessions.RunAllSplits | iox2_jsonrpc/iceoryx_server.py:142-151 | serving one batch after another is serving their concatenation |
| Endpoint.FindBinding | iox2_jsonrpc/endpoint.py:50-52 | the binding found has the wanted name and is one of the controller's; none is found exactly when none has the name |
| Endpoint.ControllerRpcEndpoint.HandleRequest | iox2_jsonrpc/endpoint.py:38-80 | the loop over bindings with its early returns gives the new controller state and the answer of the dispatch |
| Endpoint.ControllerRpcEndpoint.HandleRaw | iox2_jsonrpc/endpoint.py:23-36 | the same from bytes to bytes, with unreadable requests answered as parse errors |
| Endpoint.DescribeMethods | iox2_jsonrpc/controller.py:82-110 | the descriptor lists every binding's qualified name in order |
| Endpoint.RequestIsExecuted | iox2_jsonrpc/endpoint.py:48-74 | a described method validates the very parameters of the request, or none if there are none, is called with what validation makes of them, and its outcome is the answer; rejected parameters are answered -32602 with the details and change nothing |
| Endpoint.OtherRequestsAreRefused | iox2_jsonrpc/endpoint.py:39-80 | a method that is not described is answered -32601 under the request's id and changes nothing |
| Endpoint.BytesCarryTheAnswer | iox2_jsonrpc/endpoint.py:23-36 | the bytes returned are read back as the answer of the request that was read, with its effect; unreadable bytes are answered -32700 without an id and change nothing |
| Endpoint.EndpointsAreDistinct | iox2_jsonrpc/controller.py:70-79 | rpc and schema endpoints never coincide, and where controller names have no slash the endpoint determines service and controller |
| Endpoint.DispatchedIffDescribed | iox2_jsonrpc/endpoint.py:39-52 | a request reaches a binding if and only if the descriptor lists its method; otherwise it is answered method-not-found and nothing changes |
| Endpoint.DescribedBindingIsUnique | iox2_jsonrpc/controller.py:91-102 | at most one binding answers to a method |
| Endpoint.ReplyClassifies | iox2_jsonrpc/endpoint.py:38-80 | a reply is well-formed, under the request's id, and its code says whether controller code ran |
| Endpoint.IdIsOnlyEchoed | iox2_jsonrpc/endpoint.py:38-80 | the id influences nothing but the id of the reply |
| Endpoint.MissingParamsAreEmpty | iox2_jsonrpc/endpoint.py:55 | absent and empty parameters are handled alike |
| Endpoint.ControllerExceptionIsInternal | iox2_jsonrpc/endpoint.py:64-72 | an exception in the controller is answered internal-error, never as a refusal |
| Endpoint.AnswerBytesClassify | iox2_jsonrpc/endpoint.py:23-36 | parse-error means exactly that the request was unreadable; the three refusals mean exactly that no controller code ran |
| Endpoint.RefusalIgnoresState | iox2_jsonrpc/endpoint.py:38-80 | a refused request is refused alike in every state and changes none |
| Endpoint.RefusedRequestsAreInvisible | iox2_jsonrpc/endpoint.py:23-80 | leaving refused requests out of a sequence changes neither the final state nor any remaining answer |
| Camera.CameraController.Open | examples/camera.py:44-46 | opens the camera and reports it |
| Camera.CameraController.Close | examples/camera.py:48-50 | closes the camera and reports it |
| Camera.CameraController.Status | examples/camera.py:52-53 | reports the state |
| Camera.CameraController.Capture | examples/camera.py:55-65 | opens the camera if needed, counts, and numbers the frame by the count |
| Camera.CameraHandles | examples/camera.py:22-65 | each method succeeds if and only if its parameters are in order; open, close and status lead to their state and report `opened` and `captures` of it; a capture opens, counts, and reports its number as `captures` and `frame_id` and the exposure asked for, 10 if none is; every other request changes nothing |
| Camera.CounterCountsCaptures | examples/camera.py:59 | over any stream of requests the counter counts exactly the successful captures |
| Camera.CapturesAreNumbered | examples/camera.py:55-65 | from a new camera the response to the k-th successful capture has the members `frame_id` and `captures` equal to k, `opened` true, and the exposure asked for, whatever else is in the stream |
| Camera.OpenUntilClosed | examples/camera.py:44-57 | after a successful capture the camera stays open until a close succeeds |
| CameraService.SentCapturesAreNumbered | examples/camera.py:55-65 | the same for every response a camera server sends in its life, over all cycles and faults |
| CameraService.OpenAfterItsLife | examples/camera.py:44-57 | over a server's whole life, the camera is left open if a capture response was sent and no close received after that capture succeeded |
| Ports.SliceToBytes | iox2_jsonrpc/iceoryx_helpers.py:22-23 | copies every byte of the slice |
| Ports.WriteBytesToUninitSlice | iox2_jsonrpc/iceoryx_helpers.py:26-33 | overwrites the front of the slice with the payload and leaves the rest |
| Ports.CreateServerWithDeadNodeCleanup | iox2_jsonrpc/iceoryx_helpers.py:132-180 | the first success is returned, any other error is re-raised at once, attempts, cleanups and total backoff are exact, and it gives up exactly after the allowed number of capacity failures |
| Ports.BackoffClosedForm | iox2_jsonrpc/iceoryx_helpers.py:163-166 | total backoff in units of 50 ms is k(k+1)/2 up to ten failures and 10k-45 from there |
| Server.Iox2JsonRpcServer.SendResponse | iox2_jsonrpc/iceoryx_server.py:129-132 | what is sent is the payload, byte for byte |
| Server.Iox2JsonRpcServer.ServeRequest | iox2_jsonrpc/iceoryx_server.py:148-151 | a request taken is deleted on every way out, and a later exception replaces an earlier one |
| Server.Iox2JsonRpcServer.DrainRequests | iox2_jsonrpc/iceoryx_server.py:134-151 | the drain loop over a port, with its guard for a closed one |
| Server.Iox2JsonRpcServer.CreatePorts | iox2_jsonrpc/iceoryx_server.py:67-80 | the constructor's try block with both acquisitions |
| Server.Iox2JsonRpcServer.CloseServer | iox2_jsonrpc/iceoryx_server.py:166-173 | gives back what is held, in order, and forgets it |
| Server.Iox2JsonRpcServer.RunForever | iox2_jsonrpc/iceoryx_server.py:190-205 | serves until an exception, closes on every way out, and swallows exactly an interrupt and a wait failure |
| Server.DrainIsSequential | iox2_jsonrpc/iceoryx_server.py:134-158 | with any faults, draining executes the front of the queue one request at a time, in order, and deletes each once |
| Server.DrainStopsAtFirstFault | iox2_jsonrpc/iceoryx_server.py:142-151 | it stops early exactly at the first exception and raises that one |
| Server.DrainRefinesHandling | iox2_jsonrpc/iceoryx_server.py:134-164 | without faults it empties the queue and leaves the controller where handling the requests in order leads |
| Conservation.FaultlessDrainAnswersEach | iox2_jsonrpc/iceoryx_server.py:148-149 | without faults exactly one response is sent per request, in order, to each its own answer |
| Conservation.ConstructorIsBalanced | iox2_jsonrpc/iceoryx_server.py:67-80 | however the acquisitions end, obtained handles are those released and those held; failing, it holds nothing if and only if the exception is no interrupt |
| Conservation.FailedConstructionReleasesIff | iox2_jsonrpc/iceoryx_server.py:78-80 | a failed construction releases all it obtained if and only if neither acquisition that was tried ended in an interrupt |
| Conservation.ClosedServerIsInert | iox2_jsonrpc/iceoryx_server.py:139-140 | after a close, drains and further closes do nothing |
| Conservation.EverythingIsGivenBack | iox2_jsonrpc/iceoryx_server.py:134-173 | with any calls around a close, every handle is released once, servers before services, and every request received is deleted once |
| Conservation.ServedLife | iox2_jsonrpc/iceoryx_server.py:190-205 | the same through `run_forever` whatever ends it; the controller is where the received requests lead a fresh one and every response sent is the answer of that execution |
| Lifecycle.ConstructionTakesInOrder | iox2_jsonrpc/iceoryx_server.py:58-80 | the constructor takes its two services and two servers in order; it raises what the first failing acquisition raises, and has then given back all it took, the last first, unless that was an interrupt |
| Lifecycle.ClosingGivesBack | iox2_jsonrpc/iceoryx_server.py:166-173 | closing gives back what is held, schema server, rpc server, schema service, rpc service |
| Lifecycle.LifeInOrder | iox2_jsonrpc/iceoryx_server.py:166-205 | over any life that is closed, by a call or by `run_forever`, exactly four handles are taken, and the same four are given back once each in the opposite order |
| Serving.TurnsFollowTheScript | iox2_jsonrpc/iceoryx_server.py:142-205 | the turns take up wait, schema port and rpc port item by item, each request received, answered and deleted last, and end at the first item that raises, with what it raises |
| Serving.CleanTurnsServeAll | iox2_jsonrpc/iceoryx_server.py:142-205 | while nothing is raised, every request that lies in a port in some turn is taken, in order, and sent its own answer: the controller's, executing them one after the other, or the descriptor |
| Serving.CleanCallsServeAll | iox2_jsonrpc/iceoryx_server.py:134-164 | the same when the ports are drained by single calls in any order |
| Discovery.AttributeSetToDict | iox2_jsonrpc/iceoryx_helpers.py:208-219 | fills the dictionary pair by pair |
| Discovery.DictKeepsLast | iox2_jsonrpc/iceoryx_helpers.py:214-217 | a repeated key keeps its last value |
| Discovery.DictHasKeyIff | iox2_jsonrpc/iceoryx_helpers.py:208-219 | the dictionary has exactly the keys of the pairs |
| Discovery.IncompleteEntriesAreSkipped | iox2_jsonrpc/iceoryx_registry.py:63-89 | an entry without a protocol, kind or schema attribute is not recognised |
| Discovery.RecogniseIff | iox2_jsonrpc/iceoryx_registry.py:63-87 | an entry is recognised as a service if and only if nothing in it raises and its last attributes say just that: protocol, kind, names, a schema endpoint, and the methods between the commas |
| Discovery.DiscoverAll | iox2_jsonrpc/iceoryx_registry.py:53-96 | the services are those of the first round before the deadline that lists any, and none only when time ran out |
| Discovery.CollectIsExact | iox2_jsonrpc/iceoryx_registry.py:62-89 | one service per endpoint, the last one listed, in the order of first listing, and no endpoint lost |
| Discovery.SkippedEntriesAreInvisible | iox2_jsonrpc/iceoryx_registry.py:63-89 | entries that are foreign, incomplete or raise do not affect the others |
| Discovery.FindByEndpoint | iox2_jsonrpc/iceoryx_registry.py:201-206 | an exact keyed lookup on distinct endpoints, failing exactly when the endpoint is not listed |
| Registry.LoadAllDescriptors | iox2_jsonrpc/iceoryx_registry.py:106-155 | each service is loaded completely or left as it was, independently of the others |
| Registry.LoadKeepsAllOrNothing | iox2_jsonrpc/iceoryx_registry.py:112-155 | if every step succeeds the service has the fetched descriptor with its service, client and methods, otherwise it is unchanged; endpoints and names never change |
| Registry.DiscoveryIsAllOrNothing | iox2_jsonrpc/iceoryx_registry.py:96-104 | every registry discovery builds is all-or-nothing with distinct endpoints |
| Registry.BuiltServicesAreExact | iox2_jsonrpc/iceoryx_registry.py:53-104 | a registry lists exactly the endpoints offered, each once, as the last entry for it advertises it, loaded if all steps succeed |
| Registry.LoadingHonestServerChangesNothingIff | iox2_jsonrpc/iceoryx_registry.py:85-153 | a server is discovered under its own names, and loading its descriptor keeps the advertised methods if and only if no name has a comma |
| Registry.RequestBytes | iox2_jsonrpc/iceoryx_registry.py:157-180 | returns the first response seen before the deadline, times out if and only if there is none, and polls at most ceil(timeout/tick) times |
| Registry.Iox2RpcRegistry.Call | iox2_jsonrpc/iceoryx_registry.py:208-232 | without a client nothing happens; otherwise a new number is used, the very method and parameters are sent once, and the call ends with the first response, exception or failing wait before the deadline, and with a timeout if there is none |
| Registry.CompleteNumbersAreConsecutive | iox2_jsonrpc/iceoryx_registry.py:219-221 | used sequentially, a registry numbers its requests 1, 2, 3 and so on |
| Gateway.DynamicRpcGateway.StatusNow | examples/webapi.py:86-94 | the status tells whether the latest commit succeeded, the number of commits, the size of the active registry and the latest error |
| Gateway.DynamicRpcGateway.Refresh | examples/webapi.py:106-124 | one more commit: the registry is replaced on success and kept on failure, and the status returned tells of the commits including this one |
| Gateway.CommitsAccount | examples/webapi.py:113-122 | the counter counts the commits, there is an error if and only if the latest failed, and the registry is that of the latest success |
| Gateway.StatusTells | examples/webapi.py:86-94 | ok means that no commit was made or the latest succeeded; the service count is that of the latest good registry and the error is that of the latest commit |
| Gateway.MatchingServices | examples/webapi.py:218-228 | the loop collects exactly the services that match, in order |
| Gateway.Matches | examples/webapi.py:218-228 | a service matches if and only if its controller name is the one wanted and so is its service name, where one is given |
| Gateway.Matching | examples/webapi.py:218-228 | a service is a candidate if and only if it is listed and matches both names |
| Gateway.FindByMethod | iox2_jsonrpc/iceoryx_registry.py:198-199 | a service is found if and only if it is listed and offers the method |
| Gateway.RoutesCoincide | examples/webapi.py:291-366 | the ways to call a unique controller's method select one service and send the same method, parameters and id |
| Gateway.LookupsSurviveLoadingIff | iox2_jsonrpc/iceoryx_registry.py:106-199 | over discovered honest servers, loading descriptors changes no answer to a lookup by method if and only if no loaded service has a method name with a comma |
| Gateway.RoutesWithoutDescriptorIff | examples/webapi.py:191-216 | routes derived from the descriptor are the local names; those derived from the method list are the same if and only if the controller name has no dot or there is no method |
| Interleavings.CallStepOk | examples/webapi.py:252-284 | a step of a call keeps its facts, takes nothing back that is shared, and sends at most its one message |
| Interleavings.RefreshStepOk | examples/webapi.py:106-124 | a step of a refresh keeps the accounts and never touches messages |
| Interleavings.EveryRunIsOk | examples/webapi.py:106-366 | the invariant holds in every state of every run |
| Interleavings.RunGrows | examples/webapi.py:106-366 | nothing published, committed or sent is ever taken back or altered |
| Histories.EveryThreadWasStarted | examples/webapi.py:291-366 | every thread of a run was started by an action, and a call is still the call that was made |
| Histories.CallLookedUp | examples/webapi.py:218-250 | every call past its start was routed, or turned away, as the registry active at its first step demands |
| Histories.CallLookedAgain | examples/webapi.py:252-284 | every call past its second look met a registry there unless it ended for want of one, and takes its number from the registry active then; `call_rpc` stays with the one it has |
| Histories.FailedCallReportsWhy | examples/webapi.py:261-316 | a call that could not send or stopped waiting reports why: no client, or the text of the exception that one of its own steps raised; `call_rpc` as -32601, the others as -32603 |
| Histories.EveryCommitIsOneRefresh | examples/webapi.py:106-124 | commits and refreshes past their lock section correspond one to one |
| Histories.RefreshCommitted | examples/webapi.py:106-124 | a refresh past its lock section has committed what it built, under its number |
| Histories.ServersStay | iox2_jsonrpc/iceoryx_server.py:30-80 | no step changes which servers there are, or their controllers |
| Histories.DownServersStay | iox2_jsonrpc/iceoryx_server.py:190-205 | a server that is stopped or has raised handles nothing any more |
| Guarantees.ForwardedToUniqueMatch | examples/webapi.py:218-284 | every request goes to the client of the service that was the only match in the registry active in the state of the run in which its call took its first step, whatever was active later, and carries the method and the very parameters of the call |
| Guarantees.PayloadIsRequestFor | iox2_jsonrpc/iceoryx_registry.py:219-226 | the bytes sent are read as a request with the number, the method and the parameters of the call, or no parameters if it has none |
| Guarantees.TurnedAwayIff | examples/webapi.py:230-250 | a call is turned away if and only if not exactly one service matched in the registry active at its first step; it is told method-not-found and never sends anything |
| Guarantees.OneRequestPerCall | iox2_jsonrpc/iceoryx_registry.py:219-230 | a call sends at most one request |
| Guarantees.ServersAreSequential | iox2_jsonrpc/iceoryx_server.py:142-164 | the servers stay those the run began with; each has handled its requests once each, in sending order, and is in the state their sequential execution by its first controller leads to from its first state |
| Guarantees.ServeIsOneDrainStep | iox2_jsonrpc/iceoryx_server.py:142-151 | a server step of the system is the drain of one request |
| Guarantees.RemoteRefinesLocal | examples/webapi.py:345-366 | in every interleaving an answered call gets what handling its own request under its own id gives locally, with the controller and from the first state of the server of the only match at its first step, after the requests that server handled before it |
| Guarantees.AnswersRespectRealTime | examples/webapi.py:345-366 | a call that starts after another was answered is handled after it |
| Guarantees.CallersGetTheirId | examples/webapi.py:284-289 | every call made has a thread of its own, and a response it gets is under the id the caller gave |
| Guarantees.RefusalMeansNothingRan | examples/webapi.py:230-316 | the request of a call told method-not-found or invalid-params runs controller code, now or later, if and only if it was a `call_rpc` that stopped waiting and the controller has the method and accepts the parameters; any other such request reached a known server |
| Guarantees.RefreshesAccount | examples/webapi.py:106-128 | in every interleaving of refreshes the counter is the number of refreshes past their lock section, which correspond one to one to the commits; error and registry are those of the latest and the latest successful commit, and a reported status is no older than its refresh |
| Guarantees.EveryCommitWasBuilt | examples/webapi.py:106-124 | the commit of each number is, in lock order, what one refresh's own factory gave it: nothing, a registry object of its own, or an earlier one that the factory gave back |
| Guarantees.RegistriesAreAllOrNothing | examples/webapi.py:96-122 | if every refresh builds with the default factory, every registry the gateway holds is all-or-nothing with distinct endpoints |
| Guarantees.NoRegistryIff | examples/webapi.py:252-267 | a controller-scoped call that has selected a service ends without a registry if and only if the latest successful refresh at its second look had brought None |
| Guarantees.NoRegistryNeedsNone | examples/webapi.py:261-267 | if no refresh builds with a factory that returns None, the no-registry branch is never taken |
| Deployment.NotFoundIff | iox2_jsonrpc/endpoint.py:39-80 | method-not-found is answered if and only if the descriptor does not list the method |
| Deployment.NamedControllerAnswers | examples/webapi.py:218-366 | where servers are listed as they are, in every interleaving an answered call was handled by a controller it names, and told method-not-found if and only if that controller does not list the method; an answered `call_rpc` never is |
| Counters.RecordKeepsTally | iox2_jsonrpc/iceoryx_registry.py:219-221 | a step of a thread keeps the history of a counter, and keeps it in sequence if and only if it disturbs nobody |
| Counters.DistinctMeansSequence | iox2_jsonrpc/iceoryx_registry.py:219-221 | once all have their numbers, distinct numbers need a counter raised by one each time and each number its writer's place |
| Numbering.InSequenceIffUndisturbed | iox2_jsonrpc/iceoryx_registry.py:219-221 | in every run, and whoever is still taking a number, a registry's numbers are in sequence if and only if no thread ever wrote the counter while another was between its readings |
| Numbering.NumbersDistinctIff | iox2_jsonrpc/iceoryx_registry.py:219-221 | when nobody is left taking a number, the numbers of a registry are distinct if and only if no thread wrote its counter while another was between its readings |
| Numbering.UndisturbedNumbersAreConsecutive | iox2_jsonrpc/iceoryx_registry.py:219-221 | undisturbed, they are 1, 2, 3 and so on in the order of the writes |
| Numbering.MessagesCarryTheirNumbers | iox2_jsonrpc/iceoryx_registry.py:219-230 | every message was numbered by a registry and carries the number its sender read there |
| Numbering.NumberComesFromActive | examples/webapi.py:252-284 | the registry that numbers a call is the one active at its second look, and for `call_rpc` the one it found its service in |
| Numbering.WireNumbersDistinctIff | iox2_jsonrpc/iceoryx_registry.py:219-230 | undisturbed, a registry puts no number on the wire twice; and only then, if all who got a number have sent their requests |
| Scenarios.UndisturbedCallIsLocal | examples/webapi.py:252-284 | a call offered an idle server can complete, with the local answer and the local effect |
| Scenarios.UndisturbedNumbering | iox2_jsonrpc/iceoryx_registry.py:219-230 | undisturbed, the request goes out once, under the next number |
| Scenarios.RpcTimeoutHidesTheStep | examples/webapi.py:305-316 | for every request that runs controller code, `call_rpc` can report an unknown method although the controller has executed it |
| Scenarios.CameraCapturesBehindATimeout | examples/webapi.py:305-316 | a concrete run: the camera has captured, and the caller is told the method does not exist |
| Scenarios.NoneEndsTheCall | examples/webapi.py:252-267 | in any state, one refresh that brings None ends a controller-scoped call that has selected its service and not looked again |
| Scenarios.NoneBetweenTheLooks | examples/webapi.py:261-267 | a run from nothing in which that happens |
| Scenarios.WireNumbersCanCollide | iox2_jsonrpc/iceoryx_registry.py:219-221 | a run in which two calls through one registry put the same number on the wire |
| Scenarios.WireNumbersRepeatAfterRefresh | examples/webapi.py:106-122 | a run in which two calls one after the other do so, through two registries, because of the refresh between them |

## Left out

- Json.ReadWritten: JSON texts and values beyond what the writer produces are not modelled: fractions and exponents, insignificant white space, escapes other than of the quote and the backslash (control characters are written raw), and the coercions of pydantic (a bool or a numeric string for an integer is refused here).
- Json.DecodeIff: a negative zero is refused, and so is every text the writer does not produce.
- Json.DecodeUndoesEncode: over the same values, so without fractions, and the same text.
- The data of validation errors and of parse errors is pydantic's; here it is one fixed value.
- The JSON text of descriptors: loading receives the descriptor itself or a failure.
- `handle` called in process with a result that cannot be dumped: the exception is placed in `handle`, while in the source it is raised when the response is dumped.
- Reflection in `iter_rpc_methods`: the bindings are given; where needed their names are distinct.
- iceoryx2 itself: ports are first-in first-out queues, each request has one response channel, creation may fail, a wait advances the clock by at least a fixed step.
- Dead-node cleanup beyond the number of times it is called, force-removal of services, buffer sizes.
- Interrupts inside `close`, inside discovery and inside gateway threads.
- Service creation in the server's constructor, which lies before its try block.
- Servers that restart on the same endpoint while the gateway runs.
- A custom factory that alters the services of a registry object it has returned before.
- The periodic refresh loop: refreshes happen at any time and any number of times.
- `describe_all`, `catalog`, `descriptors`, the schema and method listings of the gateway.
- HTTP routes, OpenAPI assembly and status mapping, the command line, logging, printing.
- Gateway.Call.SelectionFailure: its code and id are stated, not the wording of its message.
- The wording of other messages, in particular those that quote Python values: quotes are added without escaping and lists are joined by plain commas.
- The three gateway calls as sequential methods of the gateway class: they are modelled as threads of `System`, because their interleavings are the point.
