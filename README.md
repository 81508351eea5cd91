# Zeebe: service stop protocol, command-response writer, deploy-process stub

This project models three sequential parts of Zeebe in Dafny and proves properties about them.

- **Service container stop protocol.** A single worker owns a registry of services with dependency edges. A FIFO work queue holds install requests, remove requests and stop completions. A second queue holds the actions services hand to `stopContext.run`. Futures are single-assignment cells.
  - A service's `stop` completes in one of three ways: it runs an action, it waits on a supplied future, or it waits on a fresh future from `async()`.
  - A remove request completes only once that stop has completed. It then completes normally, even when the stop future failed or the action threw.
  - A service begins to stop only after every service depending on it has left the registry.

  The container's own implementation is not part of this model. Its behaviour is reconstructed from what the stop tests assert:
  - `container_model.dfy` holds the state machine as functions on values;
  - `container.dfy` holds the controlled container, a class whose methods update its fields step by step;
  - `container_properties.dfy` holds the properties that hold for every state;
  - `container_scenarios.dfy` replays the ten tests.
- **`CommandResponseWriterImpl`** (`command_response.dfy`). This is the broker's builder for command responses, together with its serialiser into the Simple Binary Encoding (SBE) message structure: message header, fixed block, 16-bit-length-prefixed value, 16-bit-length-prefixed rejection reason. The generated encoders supply the header bytes, block length, block encoding, byte order and null values; these are the parameters of `Schema`. `ServerOutput` and `RequestLimiter` are collaborators that record what they are given.
- **`DeployProcessStub`** (`deploy_process.dfy`). This is the gateway tests' stub. It adds one process entry per deployment resource to the request's own record and answers with that record.

## Model

| member | source | states |
|---|---|---|
| ContainerModel.Stop | service-container/src/test/java/io/zeebe/servicecontainer/impl/AsyncServiceStopTest.java:287-301 | Stop-mode selection is prioritised and exclusive: an action gives `run(action)`; otherwise a supplied future gives `async(future)`; otherwise `async()`. The future the stop waits on is the one the service's `future` field holds afterwards. A mock service calls nothing. |
| ContainerModel.Resolve | service-container/src/test/java/io/zeebe/servicecontainer/impl/AsyncServiceStopTest.java:82 | Completing a future changes only that future, and only if it was incomplete. |
| ContainerModel.ResolveAll | service-container/src/test/java/io/zeebe/servicecontainer/impl/AsyncServiceStopTest.java:270-271 | Completing a list of futures completes every incomplete one in the list. Every other future keeps its value. |
| ContainerModel.Unregister | service-container/src/test/java/io/zeebe/servicecontainer/impl/AsyncServiceStopTest.java:82-86 | Finishing a removal deletes the entry. Each of its remove futures still open completes normally, whatever the stop's own outcome was. Every other future and both queues are unchanged. |
| ContainerModel.StopEntry | service-container/src/test/java/io/zeebe/servicecontainer/impl/AsyncServiceStopTest.java:287-301 | Invoking `stop` on a started service always makes progress: the registry's termination measure decreases. What follows depends on the call `stop` made. `run(action)` queues the action, and the entry waits on it. `async()` issues a new incomplete future, which the service holds and the entry waits on. `async(future)` waits on that future while it is open. No call, or a supplied future already complete, finishes the removal at once. |
| ContainerModel.Advance | service-container/src/test/java/io/zeebe/servicecontainer/impl/AsyncServiceStopTest.java:56-58 | A ready pending service starts and its install future completes normally. A ready started service begins its stop, as `StopEntry` says. Either step makes progress, and the work queue is untouched. |
| ContainerModel.RunJob | service-container/src/test/java/io/zeebe/servicecontainer/impl/AsyncServiceStopTest.java:56-62 | An install registers a pending entry under a free name and fails its future under a taken one. A remove attaches its future to the named entry, or fails it for an unknown name. A stop completion unregisters an entry whose stop is in flight and changes nothing otherwise. No job touches the queues or the record of run actions. |
| ContainerModel.Drain | service-container/src/test/java/io/zeebe/servicecontainer/impl/AsyncServiceStopTest.java:58 | `doWorkUntilDone` terminates in an idle state: no queued job and no service ready to start or stop. |
| ContainerModel.ActionsOf | service-container/src/test/java/io/zeebe/servicecontainer/impl/AsyncServiceStopTest.java:190-191 | Executing the queued stop actions runs each action exactly once, in queue order. |
| ContainerModel.CompletionsOf | service-container/src/test/java/io/zeebe/servicecontainer/impl/AsyncServiceStopTest.java:217-219 | Each executed stop action yields a stop completion for its service, in order, whether or not it threw. |
| ContainerModel.Waiters | service-container/src/test/java/io/zeebe/servicecontainer/impl/AsyncServiceStopTest.java:266-267 | Completing a future from outside the worker queues a stop completion for exactly the services whose stop waits on it. |
| ContainerProperties.InvEmpty | service-container/src/test/java/io/zeebe/servicecontainer/impl/AsyncServiceStopTest.java:43-44 | A new container satisfies the ordering invariant: names are unique, and every dependency of a started or stopping service is registered and started. |
| ContainerProperties.InvRunJob | service-container/src/test/java/io/zeebe/servicecontainer/impl/AsyncServiceStopTest.java:239-241 | Running any queued job keeps the ordering invariant. |
| ContainerProperties.InvAdvance | service-container/src/test/java/io/zeebe/servicecontainer/impl/AsyncServiceStopTest.java:231-236 | Starting or stopping any ready service keeps the ordering invariant. |
| ContainerProperties.InvDrain | service-container/src/test/java/io/zeebe/servicecontainer/impl/AsyncServiceStopTest.java:225-246 | `doWorkUntilDone` keeps the ordering invariant. |
| ContainerProperties.InvRequests | service-container/src/test/java/io/zeebe/servicecontainer/impl/AsyncServiceStopTest.java:254-266 | Each of these keeps the ordering invariant: install, remove, new future, completing a future from outside, and executing the stop actions. |
| ContainerProperties.DependencyOutlivesDependent | service-container/src/test/java/io/zeebe/servicecontainer/impl/AsyncServiceStopTest.java:225-246 | Reverse-dependency ordering: while a started or stopping dependent is registered, each of its dependencies is started. So a dependency has neither begun nor finished stopping. |
| ContainerProperties.StopInFlightWaits | service-container/src/test/java/io/zeebe/servicecontainer/impl/AsyncServiceStopTest.java:60-65 | A stop in flight waits. Through `doWorkUntilDone`, an entry whose stop waits on an action or a future stays registered and still waiting, unless its own stop completion is queued. |
| ContainerProperties.RemoveWaitsForStop | service-container/src/test/java/io/zeebe/servicecontainer/impl/AsyncServiceStopTest.java:60-64 | A remove future waits for the stop. Through `doWorkUntilDone`, an open remove future of an entry whose stop is in flight stays open and attached to that entry. This holds unless its stop completion is queued, or another entry or queued request holds the same future. It is the general form of the tests' `assertNotCompleted(removeFuture)`. |
| ContainerProperties.NormalStaysThroughDrain | service-container/src/test/java/io/zeebe/servicecontainer/impl/AsyncServiceStopTest.java:82-86 | A normally completed future stays completed normally through `doWorkUntilDone`: futures complete at most once. |
| ContainerProperties.RemoveCompletesOnQueue | service-container/src/test/java/io/zeebe/servicecontainer/impl/AsyncServiceStopTest.java:82-86 | For every state satisfying the ordering invariant, once the stop completion of an entry whose stop is in flight is queued, `doWorkUntilDone` completes its open remove future normally. This assumes no other entry and no queued request holds that future. |
| ContainerProperties.RemoveCompletesAfterStop | service-container/src/test/java/io/zeebe/servicecontainer/impl/AsyncServiceStopTest.java:123-149 | For every state satisfying the ordering invariant, completing the future an entry's stop waits on, normally or exceptionally, and then `doWorkUntilDone` completes that entry's open remove future normally. This assumes no other entry and no queued request holds that future. It is the general form of `shouldContinueOnSuppliedFuture` and `shouldContineOnSuppliedFutureCompletedExceptionally`. |
| ContainerProperties.RemoveCompletesAfterAction | service-container/src/test/java/io/zeebe/servicecontainer/impl/AsyncServiceStopTest.java:190-195 | For every state satisfying the ordering invariant, `executeAsyncActions` and then `doWorkUntilDone` complete normally the open remove future of an entry whose stop action was queued. This assumes no other entry and no queued request holds that future. It is the general form of `shouldContinueOnAction`. |
| ContainerProperties.ReinstallBehindRemoveFails | service-container/src/test/java/io/zeebe/servicecontainer/impl/AsyncServiceStopTest.java:60-61 | An example of `doWorkUntilDone` running every queued request before any settle step. A started mock service `n` has a remove and then a reinstall of `n` queued. The drain ends with an empty registry, the remove future completed normally and the reinstall future completed exceptionally. |
| ContainerProperties.AgreeDrain | service-container/src/test/java/io/zeebe/servicecontainer/impl/AsyncServiceStopTest.java:130-150 | Two states that differ only in how one completed future completed stay that way through `doWorkUntilDone`. |
| ContainerProperties.StopFailureSwallowed | service-container/src/test/java/io/zeebe/servicecontainer/impl/AsyncServiceStopTest.java:130-150 | Completing a stop future exceptionally instead of normally changes nothing the container does afterwards. Registry, queues and every other future, remove futures included, are the same. |
| ContainerProperties.DrainIdempotent | service-container/src/test/java/io/zeebe/servicecontainer/impl/AsyncServiceStopTest.java:62 | Calling `doWorkUntilDone` again on an idle container changes nothing. |
| ServiceContainer.ControlledServiceContainer.constructor | service-container/src/test/java/io/zeebe/servicecontainer/impl/AsyncServiceStopTest.java:43-44 | A new container is empty. |
| ServiceContainer.ControlledServiceContainer.NewFuture | service-container/src/test/java/io/zeebe/servicecontainer/impl/AsyncServiceStopTest.java:94 | `new CompletableFuture<>()` adds one incomplete future. |
| ServiceContainer.ControlledServiceContainer.Install | service-container/src/test/java/io/zeebe/servicecontainer/impl/AsyncServiceStopTest.java:56-57 | `install()` queues the install and returns its future, as the model's `Install` does. |
| ServiceContainer.ControlledServiceContainer.RemoveService | service-container/src/test/java/io/zeebe/servicecontainer/impl/AsyncServiceStopTest.java:61 | `removeService` queues the removal and returns its future. |
| ServiceContainer.ControlledServiceContainer.CompleteFuture | service-container/src/test/java/io/zeebe/servicecontainer/impl/AsyncServiceStopTest.java:82 | `future.complete(null)` from outside the worker changes the state as the model's `CompleteFuture` does. |
| ServiceContainer.ControlledServiceContainer.IsCompletedNormally | service-container/src/test/java/io/zeebe/servicecontainer/impl/AsyncServiceStopTest.java:311-319 | `isCompleted` holds exactly when the future completed normally. Its negation is `isNotCompleted`: the future is still open, or it failed. |
| ServiceContainer.ControlledServiceContainer.TimesRun | service-container/src/test/java/io/zeebe/servicecontainer/impl/AsyncServiceStopTest.java:191 | `verify(action).run()` counts how often the action appears among the run actions. |
| ServiceContainer.ControlledServiceContainer.ServiceFuture | service-container/src/test/java/io/zeebe/servicecontainer/impl/AsyncServiceStopTest.java:277 | Reading `service.future` yields a future exactly when the registered service holds one, and yields that future. |
| ServiceContainer.ControlledServiceContainer.UnregisterAt | service-container/src/test/java/io/zeebe/servicecontainer/impl/AsyncServiceStopTest.java:82-86 | The loop that completes the remove futures ends in the state the model's `Unregister` gives. |
| ServiceContainer.ControlledServiceContainer.RunJob | service-container/src/test/java/io/zeebe/servicecontainer/impl/AsyncServiceStopTest.java:61-62 | Updating the fields for one job gives the model's `RunJob` state. |
| ServiceContainer.ControlledServiceContainer.AdvanceEntry | service-container/src/test/java/io/zeebe/servicecontainer/impl/AsyncServiceStopTest.java:287-301 | Starting a service, or invoking `stop` and reacting to its call, gives the model's `Advance` state. |
| ServiceContainer.ControlledServiceContainer.DoWorkUntilDone | service-container/src/test/java/io/zeebe/servicecontainer/impl/AsyncServiceStopTest.java:58 | The worker loop ends in exactly the state `Drain` gives, and that state is idle. |
| ServiceContainer.ControlledServiceContainer.ExecuteAsyncActions | service-container/src/test/java/io/zeebe/servicecontainer/impl/AsyncServiceStopTest.java:190 | The loop over queued actions ends in the state the model's `ExecuteAsyncActions` gives. |
| ContainerScenarios.InstallOneStarts | service-container/src/test/java/io/zeebe/servicecontainer/impl/AsyncServiceStopTest.java:56-58 | Installing a service without dependencies and draining leaves it started, with its install future completed. |
| ContainerScenarios.RemoveOneStops | service-container/src/test/java/io/zeebe/servicecontainer/impl/AsyncServiceStopTest.java:61-62 | Removing the only started service makes the worker invoke its `stop` with the remove future attached. |
| ContainerScenarios.StoppingIsIdle | service-container/src/test/java/io/zeebe/servicecontainer/impl/AsyncServiceStopTest.java:62-65 | While a stop is in flight, draining changes nothing. |
| ContainerScenarios.StopCompletionRemoves | service-container/src/test/java/io/zeebe/servicecontainer/impl/AsyncServiceStopTest.java:83-86 | A stop completion unregisters the service, and its open remove future completes normally. No other future changes, and no action runs. |
| ContainerScenarios.CompleteAwaited | service-container/src/test/java/io/zeebe/servicecontainer/impl/AsyncServiceStopTest.java:82 | Completing the awaited stop future queues that service's stop completion. |
| ContainerScenarios.RunQueuedAction | service-container/src/test/java/io/zeebe/servicecontainer/impl/AsyncServiceStopTest.java:190 | Executing the one queued action runs it once and queues the stop completion. |
| ContainerScenarios.InstallStarted | service-container/src/test/java/io/zeebe/servicecontainer/impl/AsyncServiceStopTest.java:54-58 | The given part of the single-service tests: after install and drain, the service is started and its install future completed. |
| ContainerScenarios.InstallAndRemove | service-container/src/test/java/io/zeebe/servicecontainer/impl/AsyncServiceStopTest.java:54-62 | The common setup of the single-service tests: install, drain, remove, drain. It leaves the state `stop` produces on the started service. |
| ContainerScenarios.StopFreshWaits | service-container/src/test/java/io/zeebe/servicecontainer/impl/AsyncServiceStopTest.java:297-300 | `stop` on a started service without action or future keeps the fresh `async()` future in its field. The service then waits on that future. |
| ContainerScenarios.StopSuppliedWaits | service-container/src/test/java/io/zeebe/servicecontainer/impl/AsyncServiceStopTest.java:293-296 | `stop` on a started service holding an incomplete supplied future waits on that future. No new future is issued. |
| ContainerScenarios.StopActionQueued | service-container/src/test/java/io/zeebe/servicecontainer/impl/AsyncServiceStopTest.java:289-292 | `stop` on a started service holding an action queues the action for `executeAsyncActions` and waits on it. |
| ContainerScenarios.RemoveWithFreshFuture | service-container/src/test/java/io/zeebe/servicecontainer/impl/AsyncServiceStopTest.java:50-62 | The given part of the fresh-future tests. The service is stopping on future 2, and remove future 1 is pending. |
| ContainerScenarios.RemoveWithSuppliedFuture | service-container/src/test/java/io/zeebe/servicecontainer/impl/AsyncServiceStopTest.java:89-102 | The given part of the supplied-future tests. The service is stopping on supplied future 0, and remove future 2 is pending. |
| ContainerScenarios.RemoveWithAction | service-container/src/test/java/io/zeebe/servicecontainer/impl/AsyncServiceStopTest.java:153-167 | The given part of the action tests. The action is queued, not yet run, and remove future 1 is pending. |
| ContainerScenarios.CompleteSuppliedAndDrain | service-container/src/test/java/io/zeebe/servicecontainer/impl/AsyncServiceStopTest.java:122-124 | Completing the supplied future, normally or exceptionally, and draining unregisters the service. Its remove future completes normally. |
| ContainerScenarios.ExecuteAndDrain | service-container/src/test/java/io/zeebe/servicecontainer/impl/AsyncServiceStopTest.java:189-192 | Executing the async actions runs the action exactly once. Draining then unregisters the service, and its remove future completes normally. |
| ContainerScenarios.ShouldWaitForAsyncStop | service-container/src/test/java/io/zeebe/servicecontainer/impl/AsyncServiceStopTest.java:50-66 | With a fresh `async()` future nobody completes, the remove future stays incomplete. |
| ContainerScenarios.ShouldContinueOnAsyncStopComplete | service-container/src/test/java/io/zeebe/servicecontainer/impl/AsyncServiceStopTest.java:68-87 | Completing the fresh stop future and draining completes the remove future normally. |
| ContainerScenarios.ShouldWaitOnSuppliedFuture | service-container/src/test/java/io/zeebe/servicecontainer/impl/AsyncServiceStopTest.java:89-106 | With an incomplete supplied future, the remove future stays incomplete. |
| ContainerScenarios.ShouldContinueOnSuppliedFuture | service-container/src/test/java/io/zeebe/servicecontainer/impl/AsyncServiceStopTest.java:108-128 | Completing the supplied future normally and draining completes the remove future normally. |
| ContainerScenarios.ShouldContinueOnSuppliedFutureCompletedExceptionally | service-container/src/test/java/io/zeebe/servicecontainer/impl/AsyncServiceStopTest.java:130-150 | Completing the supplied future exceptionally still completes the remove future normally: the failure is not propagated. |
| ContainerScenarios.ShouldWaitForAction | service-container/src/test/java/io/zeebe/servicecontainer/impl/AsyncServiceStopTest.java:153-171 | With `run(action)`, the remove future stays incomplete and the action has not run until the async actions execute. |
| ContainerScenarios.ShouldContinueOnAction | service-container/src/test/java/io/zeebe/servicecontainer/impl/AsyncServiceStopTest.java:173-196 | Executing the async actions runs the action exactly once. Draining then completes the remove future normally. |
| ContainerScenarios.ShouldContinueOnExceptionFromAction | service-container/src/test/java/io/zeebe/servicecontainer/impl/AsyncServiceStopTest.java:198-223 | A throwing action runs exactly once, and the remove future still completes normally. |
| ContainerScenarios.InstallBothQueues | service-container/src/test/java/io/zeebe/servicecontainer/impl/AsyncServiceStopTest.java:231-235 | Both install jobs register their services as pending, in install order. |
| ContainerScenarios.BothStartInOrder | service-container/src/test/java/io/zeebe/servicecontainer/impl/AsyncServiceStopTest.java:236 | The dependent is not ready while its dependency is pending. The first settle transition starts the dependency alone, completing its install future, while the dependent stays pending. Draining ends with both started. |
| ContainerScenarios.RemoveBothQueues | service-container/src/test/java/io/zeebe/servicecontainer/impl/AsyncServiceStopTest.java:239-240 | Both remove jobs attach their futures to the services, which are still started. |
| ContainerScenarios.DependentStopsFirst | service-container/src/test/java/io/zeebe/servicecontainer/impl/AsyncServiceStopTest.java:241 | The dependent begins to stop and waits on a fresh future. The dependency cannot begin to stop while its dependent is registered. |
| ContainerScenarios.InstallBothStarts | service-container/src/test/java/io/zeebe/servicecontainer/impl/AsyncServiceStopTest.java:231-236 | Installing service1, which depends on service2, and then service2, starts both. |
| ContainerScenarios.RemoveBothWaits | service-container/src/test/java/io/zeebe/servicecontainer/impl/AsyncServiceStopTest.java:239-241 | Removing both leaves service1 stopping on a fresh future. service2 stays started, with its remove future pending. |
| ContainerScenarios.DependentUnregisters | service-container/src/test/java/io/zeebe/servicecontainer/impl/AsyncServiceStopTest.java:266-270 | Completing the dependent's stop future unregisters the dependent first. Its remove future completes normally, and the dependency is still started. |
| ContainerScenarios.DependencyStopsLast | service-container/src/test/java/io/zeebe/servicecontainer/impl/AsyncServiceStopTest.java:266-271 | With its dependent gone, the dependency's stop runs. It unregisters, and its remove future completes normally. |
| ContainerScenarios.DependentStopCompletes | service-container/src/test/java/io/zeebe/servicecontainer/impl/AsyncServiceStopTest.java:266-271 | Completing service1's stop future, either way, and draining removes both services. Both remove futures complete normally. |
| ContainerScenarios.InstallBothAndRemoveBoth | service-container/src/test/java/io/zeebe/servicecontainer/impl/AsyncServiceStopTest.java:229-241 | The common part of the two concurrent-stop tests, with the state it leaves. |
| ContainerScenarios.ShouldWaitOnConcurrentStop | service-container/src/test/java/io/zeebe/servicecontainer/impl/AsyncServiceStopTest.java:225-246 | While the dependent's stop is pending, neither remove future completes. |
| ContainerScenarios.ShouldContinueConcurrentStop | service-container/src/test/java/io/zeebe/servicecontainer/impl/AsyncServiceStopTest.java:248-272 | Once the dependent's stop future completes, draining completes both remove futures normally. |
| CommandResponse.ToShort | broker-core/src/main/java/io/zeebe/broker/transport/commandapi/CommandResponseWriterImpl.java:129 | `(short) eventLength` equals the length modulo 2^16. |
| CommandResponse.ShortBytes | broker-core/src/main/java/io/zeebe/broker/transport/commandapi/CommandResponseWriterImpl.java:129 | `putShort` writes exactly two bytes. |
| CommandResponse.ReadLength | broker-core/src/main/java/io/zeebe/broker/transport/commandapi/CommandResponseWriterImpl.java:129 | A decoder reads a 16-bit length as an unsigned number below 2^16. |
| CommandResponse.LengthPrefix | broker-core/src/main/java/io/zeebe/broker/transport/commandapi/CommandResponseWriterImpl.java:128-131 | Each length prefix takes exactly `valueHeaderLength()` bytes. |
| CommandResponse.PrefixReadsBack | broker-core/src/main/java/io/zeebe/broker/transport/commandapi/CommandResponseWriterImpl.java:128-129 | The value-length prefix, written in the protocol's byte order, reads back as the value length modulo 2^16. |
| CommandResponse.PrefixOfReadLength | broker-core/src/main/java/io/zeebe/broker/transport/commandapi/CommandResponseWriterImpl.java:128-129 | Reading two bytes as a length and writing that length back gives the same two bytes. |
| CommandResponse.PrefixWrapsAt64K | broker-core/src/main/java/io/zeebe/broker/transport/commandapi/CommandResponseWriterImpl.java:128-129 | A value of 2^16 bytes gets the same prefix as an empty value. |
| CommandResponse.ReadVarData | broker-core/src/main/java/io/zeebe/broker/transport/commandapi/CommandResponseWriterImpl.java:128-132 | A decoder accepts a length-prefixed field at an offset exactly when the message holds the two prefix bytes and as many bytes as they count. The field is those bytes, and it ends just past them. |
| CommandResponse.FieldBehindPrefix | broker-core/src/main/java/io/zeebe/broker/transport/commandapi/CommandResponseWriterImpl.java:128-132 | A field the decoder accepts is its own 16-bit length prefix followed by its bytes. |
| CommandResponse.ShortOfSmall | broker-core/src/main/java/io/zeebe/broker/transport/commandapi/CommandResponseWriterImpl.java:129 | A length below 2^16 narrowed to `short` reads back unchanged as 16 unsigned bits. |
| CommandResponse.ReadVarDataAt | broker-core/src/main/java/io/zeebe/broker/transport/commandapi/CommandResponseWriterImpl.java:128-132 | A field written with its prefix at an offset reads back as the same bytes and the offset just past them, when its length is below 2^16. |
| CommandResponse.ResponseLayout | broker-core/src/main/java/io/zeebe/broker/transport/commandapi/CommandResponseWriterImpl.java:104-148 | The message's length is `getLength`'s sum. The parts follow the write order, each starting where the previous ends: header, block, value prefix, value, reason prefix, reason. |
| CommandResponse.DecodeResponseParts | broker-core/src/main/java/io/zeebe/broker/transport/commandapi/CommandResponseWriterImpl.java:104-138 | Whatever a decoder accepts is exactly header, block, prefixed value and prefixed reason concatenated in write order. |
| CommandResponse.DecodeEncode | broker-core/src/main/java/io/zeebe/broker/transport/commandapi/CommandResponseWriterImpl.java:104-138 | Decoding the written message gives back header, block, value and reason when both fit a 16-bit length. |
| CommandResponse.DecodeLaidOut | broker-core/src/main/java/io/zeebe/broker/transport/commandapi/CommandResponseWriterImpl.java:104-138 | Any message whose parts sit where `write` puts them decodes into exactly those parts, when value and reason fit a 16-bit length. |
| CommandResponse.ValueOf64KUndecodable | broker-core/src/main/java/io/zeebe/broker/transport/commandapi/CommandResponseWriterImpl.java:128-134 | A value of exactly 2^16 bytes makes the written message undecodable, because the prefix wraps. |
| CommandResponse.PutBytes | broker-core/src/main/java/io/zeebe/broker/transport/commandapi/CommandResponseWriterImpl.java:132 | Writing bytes at an offset changes the buffer in exactly that range. |
| CommandResponse.NullFields | broker-core/src/main/java/io/zeebe/broker/transport/commandapi/CommandResponseWriterImpl.java:36-44 | The initial field values: every enum NULL_VAL, the partition id, key and intent at the encoders' null values, no value writer, an empty rejection reason. |
| CommandResponse.RequestLimiter.OnResponse | broker-core/src/main/java/io/zeebe/broker/transport/commandapi/CommandResponseWriterImpl.java:95 | The limiter is told the stream and request ids, once. |
| CommandResponse.ServerOutput.SendResponse | broker-core/src/main/java/io/zeebe/broker/transport/commandapi/CommandResponseWriterImpl.java:96-98 | The transport gets the response with the two ids and exactly the bytes the writer encodes. It returns whether it accepted the response, or throws when the encoder refuses the rejection reason. |
| CommandResponse.CommandResponseWriter.constructor | broker-core/src/main/java/io/zeebe/broker/transport/commandapi/CommandResponseWriterImpl.java:36-49 | A new writer keeps its output and limiter, and every field is at its null value. |
| CommandResponse.CommandResponseWriter.SetRecordType | broker-core/src/main/java/io/zeebe/broker/transport/commandapi/CommandResponseWriterImpl.java:51-54 | Changes only the record type and returns the same writer. |
| CommandResponse.CommandResponseWriter.SetIntent | broker-core/src/main/java/io/zeebe/broker/transport/commandapi/CommandResponseWriterImpl.java:56-59 | Stores only `intent.value()` and returns the same writer. |
| CommandResponse.CommandResponseWriter.SetValueType | broker-core/src/main/java/io/zeebe/broker/transport/commandapi/CommandResponseWriterImpl.java:61-64 | Changes only the value type and returns the same writer. |
| CommandResponse.CommandResponseWriter.SetPartitionId | broker-core/src/main/java/io/zeebe/broker/transport/commandapi/CommandResponseWriterImpl.java:66-69 | Changes only the partition id and returns the same writer. |
| CommandResponse.CommandResponseWriter.SetRejectionType | broker-core/src/main/java/io/zeebe/broker/transport/commandapi/CommandResponseWriterImpl.java:71-74 | Changes only the rejection type and returns the same writer. |
| CommandResponse.CommandResponseWriter.SetRejectionReason | broker-core/src/main/java/io/zeebe/broker/transport/commandapi/CommandResponseWriterImpl.java:76-79 | The stored reason becomes the whole given buffer. Nothing else changes, and it returns the same writer. |
| CommandResponse.CommandResponseWriter.SetKey | broker-core/src/main/java/io/zeebe/broker/transport/commandapi/CommandResponseWriterImpl.java:81-84 | Changes only the key and returns the same writer. |
| CommandResponse.CommandResponseWriter.SetValueWriter | broker-core/src/main/java/io/zeebe/broker/transport/commandapi/CommandResponseWriterImpl.java:86-89 | Changes only the value writer, which may be null, and returns the same writer. |
| CommandResponse.CommandResponseWriter.Reset | broker-core/src/main/java/io/zeebe/broker/transport/commandapi/CommandResponseWriterImpl.java:150-159 | Every field returns to its null value: the same state the constructor leaves. |
| CommandResponse.CommandResponseWriter.GetLength | broker-core/src/main/java/io/zeebe/broker/transport/commandapi/CommandResponseWriterImpl.java:140-148 | `getLength` equals the number of bytes `write` lays out. |
| CommandResponse.CommandResponseWriter.Write | broker-core/src/main/java/io/zeebe/broker/transport/commandapi/CommandResponseWriterImpl.java:104-138 | Writes the encoded message, header to reason, over exactly `getLength` bytes from `offset`. Every other byte of the buffer is unchanged. |
| CommandResponse.CommandResponseWriter.TryWriteResponse | broker-core/src/main/java/io/zeebe/broker/transport/commandapi/CommandResponseWriterImpl.java:91-102 | With no value writer it fails: nothing is sent, the limiter is not told, and nothing is reset. Otherwise the limiter is told the ids and the result is `sendResponse`'s: sent with the encoded message, refused, or thrown. The writer ends reset in every case. |
| DeployProcess.ProcessesForEach | gateway/src/test/java/io/zeebe/gateway/api/deployment/DeployProcessStub.java:44-56 | One process entry per resource, in resource order. Each entry's BPMN process id and resource name are the resource's name, with version 789 and key 456. |
| DeployProcess.DeploymentRecord.AddProcess | gateway/src/test/java/io/zeebe/gateway/api/deployment/DeployProcessStub.java:49-55 | Adding a process appends exactly that entry and leaves the resources alone. |
| DeployProcess.StubbedBrokerClient.RegisterHandler | gateway/src/test/java/io/zeebe/gateway/api/deployment/DeployProcessStub.java:25 | Registers the handler for the request class. |
| DeployProcess.DeployProcessStub.RegisterWith | gateway/src/test/java/io/zeebe/gateway/api/deployment/DeployProcessStub.java:24-26 | The stub becomes the client's handler for `BrokerDeployProcessRequest`. Other handlers stay. |
| DeployProcess.DeployProcessStub.GetKey | gateway/src/test/java/io/zeebe/gateway/api/deployment/DeployProcessStub.java:28-30 | Returns 123. |
| DeployProcess.DeployProcessStub.GetProcessKey | gateway/src/test/java/io/zeebe/gateway/api/deployment/DeployProcessStub.java:32-34 | Returns 456. |
| DeployProcess.DeployProcessStub.GetProcessVersion | gateway/src/test/java/io/zeebe/gateway/api/deployment/DeployProcessStub.java:36-38 | Returns 789. |
| DeployProcess.DeployProcessStub.Handle | gateway/src/test/java/io/zeebe/gateway/api/deployment/DeployProcessStub.java:41-58 | The response holds the request's own record, partition 0 and key 123. The record's resources are unchanged, and its processes grow by exactly one entry per resource, in order. |

## Left out

- The container's implementation is not part of this model. It is reconstructed from the ten stop tests as a single worker.
- Services are settled in registry order: the worker advances the first entry that is ready.
- ContainerModel.Drain: the worker runs every queued request before it takes any settle step, and then advances one ready entry at a time. A container that settles after each request can order things differently. For example, a reinstall queued behind a remove of the same started service fails here, because the name is still registered, while settling in between would unregister first (`ReinstallBehindRemoveFails`). A second remove queued behind the first is likewise attached and completes normally, instead of failing on an unknown name. No test queues such requests, and the container's implementation is not part of this model.
- Real threads, cross-thread completion of futures and the production container thread are left out. Completing a future from outside is an explicit call.
- Service start is not modelled. The tests' services start synchronously and do nothing, so asynchronous start, start failure, injected dependencies and `get()` are left out.
- ContainerModel.RunJob: installing a name already registered, or removing a name that is not registered, completes the returned future exceptionally. The tests do not exercise these paths, so this behaviour is an assumption.
- ContainerModel.Advance, ContainerModel.Unregister and ContainerModel.RunJob: a future the worker completes itself wakes no stop waiting on it. These are install futures on start, remove futures on unregister, and the futures of failed installs and removes. In Java the continuation attached by `async(future)` runs whoever completes the future. The model assumes stop futures are completed only from outside the container, as every test does.
- ContainerModel.StopEntry: a supplied future that is already complete when `stop` runs finishes the removal in the same step, rather than through a queued continuation.
- Aliasing of services: a registered service is held by value in its entry. The test's reference to `service.future` is therefore read through `ServiceFuture` rather than through a shared object.
- Generated-encoder internals are parameters of `Schema`:
  - the field offsets and the enum encodings of `ExecuteCommandResponseEncoder` and `MessageHeaderEncoder`;
  - the concrete byte order of `Protocol.ENDIANNESS`.

  The encoder writes in the same byte order as `Protocol.ENDIANNESS`. Both variable-length headers are taken to be 16 bits, which is what `putShort` writes.
- CommandResponse.CommandResponseWriter.Write requires a rejection reason of at most 65534 bytes, a non-null value writer and a buffer large enough. In `CommandResponseWriterImpl` these cases throw from the encoder, on a null pointer, or on a bounds check. `TryWriteResponse` models only the encoder's refusal, as a throw out of `sendResponse`.
- CommandResponse.CommandResponseWriter.SetRejectionReason copies the buffer's bytes. Later changes to the wrapped buffer are not seen, so the view's aliasing is not modelled.
- CommandResponse.CommandResponseWriter.TryWriteResponse does not model exceptions thrown by `limiter.onResponse` or by the transport other than the encoder's refusal. It also does not model reuse of the `ServerResponse` object. Whether the transport has room is the `accepting` field of `ServerOutput`.
- CommandResponse.CommandResponseWriter.GetLength: Java `int` overflow of the sum is not modelled, because lengths are unbounded integers.
- The limiter's backpressure algorithm is left out. The limiter only records the responses it is told about.
- Deploy-process stub collaborators: the remaining contents of `DeploymentRecord`, the request's encoding and `StubbedBrokerClient`'s dispatch are left out.
- The transport's single-message network test uses sockets, an actor scheduler and busy-spin loops. It has nothing sequential to model.
