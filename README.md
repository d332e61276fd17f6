# Order lifecycle state machine, modelled in Dafny

This project models the order service of `com.chemaclass.orderservice`. An
order is a persisted row whose `state` column holds the name of an
`OrderStates` constant. Each event request (`pay`, `fulfill`) loads the order
and builds a fresh state machine at the stored state. The machine carries a
pre-state-change interceptor that writes the target state back to the
repository. The event is then sent to it. Undefined (state, event) pairs are
rejected and change nothing. Accepted events update the row first and then
the machine.

Modules, leaves first:

- `Wrappers` (`wrappers.dfy`): `Option`, `Result`, `Outcome`, and the two
  runtime exceptions the core can raise (`NoSuchElement` from
  `Optional.get()`, `IllegalArgument` from `Enum.valueOf`).
- `OrderStates` (`order_states.dfy`): the two enums, their name encoding and
  `valueOf`, the declared transition list, the initial and end states, and
  the lemmas about the relation and about runs of events.
- `OrderEntity` (`order_entity.dfy`): the `Order` entity as a class, and its
  persisted row as a value.
- `Persistence` (`order_repository.dfy`): the repository as an in-memory
  table `map<int, OrderRecord>` with an id generator.
- `StateMachines` (`state_machine.dfy`): the machine (`current`, `running`,
  one interceptor slot), its `SendEvent`, and the persistence interceptor.
- `OrderServices` (`order_service.dfy`): `OrderService` and two client
  scenarios, one following `Runner` and one with a rejected event.

`OrderServiceApplication.java` holds an older copy of `Order` (lines 87-106)
and `OrderService` (lines 111-188). Their code is the same as
`entity/Order.java` and `service/OrderService.java`, so one model serves both
copies. The table cites the newer files.

Dates are opaque integers. Java `Long` ids are modelled as unbounded integers; overflow
of the id generator is not modelled.

Behaviours of the code a reader may not expect, which the model keeps:

- When the `orderId` header is absent, the interceptor writes to order 1
  (`getOrDefault(ORDER_ID_HEADER, 1L)`). It does not skip the write.
- `OrderService` has no `cancel` operation, although CANCEL transitions are
  configured.
- `change` ignores its event and sends nothing.
- `pay` and `fulfill` ignore the result of `sendEvent`. A rejected event
  still returns the machine, left at the stored state.

## Model

| member | source | states |
|---|---|---|
| OrderStates.Name | src/main/java/com/chemaclass/orderservice/OrderServiceApplication.java:52-57 | `name()` is the constant's identifier: a non-empty string of upper-case letters |
| OrderStates.ValueOf | src/main/java/com/chemaclass/orderservice/OrderServiceApplication.java:52-57 | `valueOf` returns the constant whose name is exactly the string; it fails when no constant has that name |
| OrderStates.ValueOfName | src/main/java/com/chemaclass/orderservice/entity/Order.java:24-31 | decoding the name of a state gives back that state |
| OrderStates.NameInjective | src/main/java/com/chemaclass/orderservice/OrderServiceApplication.java:52-57 | different constants have different names |
| OrderStates.Find | src/main/java/com/chemaclass/orderservice/OrderServiceApplication.java:195-205 | a found target comes from a declared transition with that source and event; none is found only when no declaration has that source and event |
| OrderStates.FindFirst | src/main/java/com/chemaclass/orderservice/OrderServiceApplication.java:195-205 | the lookup returns the target of the first declaration, in configuration order, with that source and event |
| OrderStates.FindComplete | src/main/java/com/chemaclass/orderservice/OrderServiceApplication.java:195-205 | in a deterministic list, every declared transition is the one the lookup finds |
| OrderStates.TransitionsDeterministic | src/main/java/com/chemaclass/orderservice/OrderServiceApplication.java:196-204 | no two declared transitions share a source and an event with different targets |
| OrderStates.Resolve | src/main/java/com/chemaclass/orderservice/OrderServiceApplication.java:195-205 | a pair has a target exactly when some declared transition has that source and event, and the target is that declaration's |
| OrderStates.TransitionTable | src/main/java/com/chemaclass/orderservice/OrderServiceApplication.java:195-205 | the relation holds exactly SUBMITTED-PAY->PAID, PAID-FULFILL->FULFILLED, PAID-CANCEL->CANCELLED and FULFILLED-CANCEL->CANCELLED; every other pair is undefined |
| OrderStates.CancelledHasNoTransition | src/main/java/com/chemaclass/orderservice/OrderServiceApplication.java:197-203 | CANCELLED has no transition for any event |
| OrderStates.FulfilledOnlyCancels | src/main/java/com/chemaclass/orderservice/OrderServiceApplication.java:203-219 | of the end states FULFILLED and CANCELLED, only FULFILLED has a transition, on CANCEL to CANCELLED; no other event leaves it |
| OrderStates.NothingEntersSubmitted | src/main/java/com/chemaclass/orderservice/OrderServiceApplication.java:197-203 | no transition targets SUBMITTED |
| OrderStates.Step | src/main/java/com/chemaclass/orderservice/service/OrderService.java:46 | one event sent to a running machine changes its state exactly when the pair has a transition, and then to a declared target |
| OrderStates.CancelledIsAbsorbing | src/main/java/com/chemaclass/orderservice/OrderServiceApplication.java:197-219 | every sequence of events sent at CANCELLED leaves the machine at CANCELLED |
| OrderStates.SubmittedNeverReentered | src/main/java/com/chemaclass/orderservice/OrderServiceApplication.java:197-203 | from any state other than SUBMITTED, no sequence of events reaches SUBMITTED |
| OrderStates.PayThenFulfill | src/main/java/com/chemaclass/orderservice/OrderServiceApplication.java:70-77 | from the initial state SUBMITTED, PAY then FULFILL ends at FULFILLED, the runner's sequence |
| OrderEntity.DecodeState | src/main/java/com/chemaclass/orderservice/entity/Order.java:29-31 | decoding succeeds exactly for a constant's name and gives that constant; otherwise it fails with IllegalArgument |
| OrderEntity.WithState | src/main/java/com/chemaclass/orderservice/entity/Order.java:33-35 | the saved row after `setOrderState(s)` keeps its id and datetime and decodes to `s` |
| OrderEntity.WithStateIdempotent | src/main/java/com/chemaclass/orderservice/entity/Order.java:33-35 | setting the same state twice gives the same row as setting it once |
| OrderEntity.Order.constructor | src/main/java/com/chemaclass/orderservice/entity/Order.java:24-27 | a new order has no id, the given datetime, the state's name as `state`, and `getOrderState` returns that state |
| OrderEntity.Order.FromRecord | src/main/java/com/chemaclass/orderservice/entity/Order.java:16-22 | the all-arguments constructor copies id, datetime and state from the row |
| OrderEntity.Order.GetOrderState | src/main/java/com/chemaclass/orderservice/entity/Order.java:29-31 | succeeds exactly when `state` is a constant's name and returns that constant; otherwise fails with IllegalArgument |
| OrderEntity.Order.SetOrderState | src/main/java/com/chemaclass/orderservice/entity/Order.java:33-35 | `state` becomes the name of `s`, `getOrderState` then returns `s`, and id and datetime are unchanged |
| Persistence.StoredState | src/main/java/com/chemaclass/orderservice/service/OrderService.java:63-89 | loading an order's state fails with NoSuchElement for a missing id and with IllegalArgument for an unknown name; otherwise it is the stored state |
| Persistence.OrderRepository.constructor | src/main/java/com/chemaclass/orderservice/repository/OrderRepository.java:6-7 | an empty table whose id generator starts at 1 |
| Persistence.OrderRepository.FindById | src/main/java/com/chemaclass/orderservice/repository/OrderRepository.java:6-7 | returns a fresh entity exactly when the id has a row, carrying that row's id, datetime and state |
| Persistence.OrderRepository.Save | src/main/java/com/chemaclass/orderservice/repository/OrderRepository.java:6-7 | an entity without an id gets the next generated id and a new row; an entity with an id overwrites its row; the other rows are unchanged |
| StateMachines.InterceptedOrderId | src/main/java/com/chemaclass/orderservice/service/OrderService.java:79 | the interceptor's id is the `orderId` header, or 1 when the header is absent |
| StateMachines.PersistStateInterceptor.constructor | src/main/java/com/chemaclass/orderservice/service/OrderService.java:70 | the interceptor writes to the service's repository |
| StateMachines.PersistStateInterceptor.PreStateChange | src/main/java/com/chemaclass/orderservice/service/OrderService.java:72-85 | with no message nothing is written; with a missing order it fails with NoSuchElement and writes nothing; otherwise only the state of the row named by the header (or row 1) becomes the target |
| StateMachines.StateMachine.constructor | src/main/java/com/chemaclass/orderservice/service/OrderService.java:65 | a new machine is at the initial state, stopped, with no interceptor |
| StateMachines.StateMachine.Stop | src/main/java/com/chemaclass/orderservice/service/OrderService.java:66 | the machine is stopped and keeps its state |
| StateMachines.StateMachine.AddInterceptor | src/main/java/com/chemaclass/orderservice/service/OrderService.java:70-86 | the interceptor is installed; state and running flag are kept |
| StateMachines.StateMachine.ResetStateMachine | src/main/java/com/chemaclass/orderservice/service/OrderService.java:87-90 | the machine is now at the given state |
| StateMachines.StateMachine.Start | src/main/java/com/chemaclass/orderservice/service/OrderService.java:93 | the machine is running and keeps its state |
| StateMachines.StateMachine.SendEvent | src/main/java/com/chemaclass/orderservice/service/OrderService.java:41-60 | a stopped machine or an undefined pair changes neither the machine nor the repository; otherwise the interceptor writes the target first, and the machine moves to the target only if that write succeeded |
| OrderServices.AfterEvent | src/main/java/com/chemaclass/orderservice/service/OrderService.java:78-84 | after an event only the order's row can change; it keeps its id and datetime and decodes to the target; an undefined event leaves it as it was |
| OrderServices.OrderService.constructor | src/main/java/com/chemaclass/orderservice/service/OrderService.java:26-29 | the service uses the given repository |
| OrderServices.OrderService.Create | src/main/java/com/chemaclass/orderservice/service/OrderService.java:31-33 | adds exactly one row, under a new id, with the given datetime and state SUBMITTED; the returned order carries that id |
| OrderServices.OrderService.Build | src/main/java/com/chemaclass/orderservice/service/OrderService.java:62-96 | fails exactly as loading the stored state fails; otherwise returns a fresh, running machine at the stored state whose interceptor writes to this repository; nothing is written |
| OrderServices.OrderService.Change | src/main/java/com/chemaclass/orderservice/service/OrderService.java:35-39 | sends nothing: the repository is unchanged and the machine is at the stored state |
| OrderServices.OrderService.BuildAndSend | src/main/java/com/chemaclass/orderservice/service/OrderService.java:41-60 | fails with nothing written when the order cannot be loaded; otherwise the machine and the stored row both follow the transition, or both stay when it is undefined |
| OrderServices.OrderService.Fulfill | src/main/java/com/chemaclass/orderservice/service/OrderService.java:41-49 | FULFILL moves the machine and the stored row from PAID to FULFILLED, and leaves both unchanged from any other state |
| OrderServices.OrderService.Pay | src/main/java/com/chemaclass/orderservice/service/OrderService.java:51-60 | PAY moves the machine and the stored row from SUBMITTED to PAID, and leaves both unchanged from any other state |
| OrderServices.RunLifecycle | src/main/java/com/chemaclass/orderservice/Runner.java:21-31 | create, pay, fulfill: the machines end at PAID and FULFILLED, and the new row ends at FULFILLED with its datetime |
| OrderServices.FulfillBeforePay | src/main/java/com/chemaclass/orderservice/service/OrderService.java:41-49 | FULFILL on a new order is rejected: the machine and the row stay at SUBMITTED |

## Left out

- The state configuration (`OrderServiceApplication.java:209-219`) names SUBMITTED, FULFILLED and CANCELLED but never PAID. The model assumes the engine keeps every declared transition, so all four enum constants act as states. What the engine does with a transition whose source or target is missing from `withStates()` is not modelled; if it dropped such transitions, PAY and both PAID transitions would never fire.
- The `end(..)` marks have no behaviour in the model. `END_STATES` is only used to state which of them still has an outgoing transition; the transition list alone decides what the machine does. If the engine treated a machine at an end state as complete and refused every event there, CANCEL from FULFILLED would never fire, and `FulfilledOnlyCancels` and `SendEvent` at (FULFILLED, CANCEL) would describe the declared table rather than what runs. No service operation sends CANCEL, so no `OrderService` contract depends on this.

- Process startup (`OrderServiceApplication.main`, Spring Boot wiring) is not modelled.
- The logging listener and the SUBMITTED `stateEntry` action only write logs. They are left out.
- Spring Statemachine itself is not modelled: the factory, the region accessor, message builders, the machine context and `autoStartup`. Only the behaviour the service relies on is modelled, in `StateMachine`.
- The machine holds one interceptor, not a list, because `build` installs exactly one.
- On start the engine may notify interceptors with no message. The interceptor ignores such a call (`Optional.ofNullable(message)`), so `Start` does not call it. `PreStateChange` still models the no-message case.
- StateMachines.StateMachine.SendEvent: an exception thrown by the interceptor is modelled as the outcome `InterceptorFailed`, with the machine left where it was. How the library reports such an exception to the caller of `sendEvent` is not modelled. Through `pay` and `fulfill` the interceptor cannot fail: its header names the order `build` has just loaded.
- The `paymentConfirmationNumber` header is carried in `Headers` but is never read.
- Persistence.OrderRepository.Save: merging an entity whose id has no row is not modelled (a requires excludes it). Every caller saves either a new entity or one it has just loaded.
- JPA and Hibernate: the repository is an in-memory table. Entities are loaded fresh on every `FindById`; caching and identity of managed entities are not modelled.
- `Date` values are opaque integers. A null `state` string is not modelled.
- Concurrent calls on the same order are not modelled. The model is sequential.
