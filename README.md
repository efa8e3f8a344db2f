# Stock allocation, modelled in Dafny

This project models the allocation service of the cosmicpython example
repository. Customer order lines (order id, sku, quantity) are allocated to
batches of stock. A batch either sits in the warehouse (no eta) or arrives on
a shipment with an eta. The repository holds two generations of the same
rules, and both are modelled here.

The current generation (`src/allocation/...`) has four parts:

- `Model` is the domain aggregate. A `Batch` holds a set of order lines and
  derives allocated and available quantities from it. A `Product` picks the
  preferred batch for a line, records `Allocated` / `OutOfStock` events, and
  shrinks a batch with cascading deallocation (`Deallocated` events).
- `Repository` is the `TrackingRepository` decorator, which remembers in
  `seen` every product it hands out or is given. It wraps an in-memory store
  shaped like the unit-test doubles.
- `UnitOfWork` is the abstract unit of work. Leaving its scope always rolls
  back. `commit` runs `_commit`, then drains every seen product's events,
  oldest first, into the message bus. The model records these calls in a
  trace.
- `MessageBus` is the `handle` worklist loop and its `HANDLERS` table. The
  handlers and the event collection are abstract functions.
- `Handlers` and `Services` are the handlers and service functions. Each one
  creates or appends a product, raises `InvalidSku` before any commit,
  returns the chosen batch reference, and so on.

The earlier generation has these parts:

- `LegacyModel` (`domain/model.py`): a module-level `allocate` that raises
  `OutOfStock`, and a `can_allocate` without the positivity check.
- `BatchRepository` (`repository.py`): the fake repository over a Python set
  of batches, plus the session the services commit.
- `LineServices` (`services.py`) and `ListServices`
  (`service_layer/services.py`): the two earliest service layers.

Shared building blocks:

- `Lines`: order lines and the sum of their quantities.
- `Ordering`: the eta comparison `Batch.__gt__`. It also holds the stable
  sort that Python's `sorted()` performs with it, and an independent
  description of the batch that "first in sorted order that can take the
  line" selects.

How the model maps Python onto Dafny:

- Etas are day numbers (`Option<int>`).
- Python objects that are updated in place are Dafny classes. Each batch
  class exposes its state as the value `State()` (a `BatchState`), and the
  quantity properties are stated over that value.
- Sets of order lines are Dafny sets. Their quantity sum `SumQty` is a ghost
  function. The Python properties that compute it are methods with a loop,
  proved equal to it.
- `set.pop()` and iteration over sets are arbitrary choices (`:|`). Where
  the choice matters, the chosen order is returned as a ghost
  out-parameter.

## Model

| member | source | states |
|---|---|---|
| Lines.SumQtyRemove | src/allocation/domain/model.py:48-50 | the summed quantity of a set is one member's quantity plus the sum of the rest |
| Lines.SumQtyAdd | src/allocation/domain/model.py:48-50 | adding a new line to a set adds exactly its quantity to the sum |
| Lines.SumQtyMonotone | src/allocation/domain/model.py:48-50 | with positive quantities, a subset's sum is between 0 and the superset's sum |
| Ordering.EtaGreater | src/allocation/domain/model.py:40-46 | `Batch.__gt__` on etas: a batch without eta is never greater, one with an eta is greater than one without, otherwise the later eta is greater; the same comparison as domain/model.py:42-48 |
| Ordering.EtaGreaterIsStrictOrder | src/allocation/domain/model.py:40-46 | that comparison is irreflexive, asymmetric and transitive, any two different etas are comparable, and no eta is below warehouse stock |
| Ordering.Insert | src/allocation/domain/model.py:96-98 | one insertion step of `sorted()`: the element goes in front of the first element it is not greater than (stated by InsertElements and InsertSorted) |
| Ordering.Sort | src/allocation/domain/model.py:96-98 | `sorted(batches)` by repeated insertion, which keeps equal etas in list order; also the `sorted(batches)` of domain/model.py:72; its properties are SortPermutes and SortSorts |
| Ordering.SortPermutes | src/allocation/domain/model.py:96-98 | `sorted(self.batches)` is a permutation of the batches (same multiset, same length) |
| Ordering.SortSorts | src/allocation/domain/model.py:40-46 | sorting with `__gt__` puts batches without eta first and the others by ascending eta |
| Ordering.FirstIn | src/allocation/domain/model.py:96-98 | `next(b for b in ... if b.can_allocate(line))` is the index of the first fitting element, or the length when none fits (StopIteration) |
| Ordering.Earliest | src/allocation/domain/model.py:94-101 | the reference description of the batch `allocate` picks, stated without sorting: the fitting element with the earliest eta, the first listed among equal etas, or the length when none fits; characterised by EarliestIsPreferred |
| Ordering.FirstInSortIsEarliest | src/allocation/domain/model.py:96-98 | the first fitting batch of the sorted list is the earliest fitting batch of the unsorted list (stable among equal etas), and one exists exactly when some batch fits |
| Ordering.EarliestIsPreferred | src/allocation/domain/model.py:40-46 | the selected batch fits, no fitting batch has an eta before it, and every fitting batch listed before it has a strictly later eta; none is selected exactly when no batch fits |
| Model.BatchState.Allocated | src/allocation/domain/model.py:48-50 | the allocated quantity of a batch state: the sum of its lines' quantities |
| Model.BatchState.Available | src/allocation/domain/model.py:52-54 | purchased quantity minus the allocated quantity |
| Model.BatchState.CanAllocate | src/allocation/domain/model.py:64-65 | the skus match and 0 < line quantity <= available quantity |
| Model.BatchState.Allocate | src/allocation/domain/model.py:56-58 | the state with the line added when it can be allocated, the same state otherwise (its properties: AllocateTakesStock, AllocateIdempotent, AllocateKeepsConsistent) |
| Model.BatchState.Deallocate | src/allocation/domain/model.py:60-62 | the state without the line when it is held, the same state otherwise (DeallocateFreesStock, AllocateDeallocateRoundTrip) |
| Model.ConsistentBounds | src/allocation/domain/model.py:48-54 | in a consistent batch, 0 <= allocated quantity <= purchased quantity |
| Model.NewBatchConsistent | src/allocation/domain/model.py:20-27 | a new batch with non-negative quantity is consistent and has all of it available |
| Model.AllocateTakesStock | src/allocation/domain/model.py:56-65 | allocating lowers available quantity by exactly the line's quantity when it fits and is new, otherwise leaves it unchanged; it never raises it |
| Model.AllocateIdempotent | src/allocation/domain/model.py:56-58 | allocating the same line twice equals allocating it once, so available quantity drops once |
| Model.AllocateKeepsConsistent | src/allocation/domain/model.py:56-65 | allocation preserves allocated <= purchased and positive line quantities |
| Model.DeallocateFreesStock | src/allocation/domain/model.py:60-62 | deallocating a held line frees exactly its quantity; deallocating a line not held is a no-op |
| Model.DeallocateKeepsConsistent | src/allocation/domain/model.py:60-62 | deallocation preserves consistency |
| Model.AllocateDeallocateRoundTrip | src/allocation/domain/model.py:56-62 | allocating a new line and then deallocating it restores the batch and its available quantity |
| Model.Batch.constructor | src/allocation/domain/model.py:20-27 | a new batch has the given reference, sku, eta and purchased quantity, and no allocations |
| Model.Batch.AllocatedQuantity | src/allocation/domain/model.py:48-50 | the result is the sum of quantities over the allocation set |
| Model.Batch.AvailableQuantity | src/allocation/domain/model.py:52-54 | the result is purchased quantity minus the allocated sum |
| Model.Batch.CanAllocate | src/allocation/domain/model.py:64-65 | true exactly when the skus match and 0 < line quantity <= available quantity |
| Model.Batch.Allocate | src/allocation/domain/model.py:56-58 | the new state is the old state with the line added if and only if it could be allocated |
| Model.Batch.Deallocate | src/allocation/domain/model.py:60-62 | the new state is the old state without the line if it was held, unchanged otherwise |
| Model.Batch.DeallocateOne | src/allocation/domain/model.py:67-69 | returns None on an empty allocation set; otherwise removes and returns one held line, leaving the rest |
| Model.FindReference | src/allocation/domain/model.py:117 | the index of the first batch with the reference, or the length when there is none |
| Model.FirstFitting | src/allocation/domain/model.py:95-97 | the scan stops at the first batch that can take the line, or runs to the end when none can |
| Model.SortedScanIsPreferred | src/allocation/domain/model.py:95-97 | scanning `sorted(batches)` lands on the preferred batch (earliest eta, first listed among equals), and finds nothing exactly when no batch fits |
| Model.SelectBatch | src/allocation/domain/model.py:95-100 | returns the preferred batch, which can take the line; returns None (StopIteration) exactly when no batch fits |
| Model.DeallocatedEventsAt | src/allocation/domain/model.py:119-121 | the i-th recorded event is `Deallocated` with the i-th removed line's order id, sku and quantity |
| Model.RemoveOneMore | src/allocation/domain/model.py:119-121 | removing one more line while the allocated sum still exceeds the new quantity keeps "each line was removed while over" and keeps the removed lines distinct |
| Model.DeallocatedEventsSnoc | src/allocation/domain/model.py:119-121 | removing one more line appends exactly its `Deallocated` event after the earlier ones |
| Model.Product.constructor | src/allocation/domain/model.py:75-78 | a new product has the sku, the batches and no events |
| Model.Product.Allocate | src/allocation/domain/model.py:94-108 | allocates to the preferred fitting batch, appends `Allocated(orderid, sku, qty, ref)` and returns the reference, with every other batch unchanged; when none fits, appends `OutOfStock(sku)`, returns None and changes no batch |
| Model.Product.Deallocate | src/allocation/domain/model.py:110-112 | every batch of the product ends in its old state with the line deallocated |
| Model.Product.ChangeBatchQuantity | src/allocation/domain/model.py:114-121 | the first batch with the reference gets the new purchased quantity; distinct held lines are removed, each while the allocated sum exceeded the quantity, until it is within it; one `Deallocated` is appended per removed line, in removal order; other batches are unchanged |
| Model.Product.DeallocateWhileOver | src/allocation/domain/model.py:119-121 | the loop ends with the allocated sum within the purchased quantity, having removed distinct held lines, each while still over, and appended one `Deallocated` per removed line; the purchased quantity and the batch list are unchanged |
| LegacyModel.BatchState.Available | domain/model.py:50-56 | purchased quantity minus the sum of the allocated lines' quantities |
| LegacyModel.BatchState.CanAllocate | domain/model.py:66-67 | the skus match and line quantity <= available quantity, with no positivity test |
| LegacyModel.BatchState.Allocate | domain/model.py:58-60 | the state with the line added when it can be allocated, the same state otherwise (AllocateIdempotent, NegativeLineInflatesStock) |
| LegacyModel.BatchState.Deallocate | domain/model.py:62-64 | the state without the line when it is held, the same state otherwise (DeallocateFreesStock) |
| LegacyModel.Batch.constructor | domain/model.py:22-29 | a new batch has the given fields and no allocations |
| LegacyModel.Batch.AllocatedQuantity | domain/model.py:50-52 | the sum of quantities over the allocation set |
| LegacyModel.Batch.AvailableQuantity | domain/model.py:54-56 | purchased quantity minus the allocated sum |
| LegacyModel.Batch.CanAllocate | domain/model.py:66-67 | true exactly when the skus match and line quantity <= available quantity (no positivity check) |
| LegacyModel.Batch.Allocate | domain/model.py:58-60 | adds the line if and only if it can be allocated |
| LegacyModel.Batch.Deallocate | domain/model.py:62-64 | removes the line if held, no-op otherwise |
| LegacyModel.AllocateIdempotent | domain/model.py:58-60 | allocating the same line twice equals allocating it once |
| LegacyModel.DeallocateFreesStock | domain/model.py:62-64 | deallocating a held line frees its quantity; an absent line is a no-op |
| LegacyModel.NegativeLineInflatesStock | domain/model.py:66-67 | a line of quantity -5 can be allocated to a batch of 10, and afterwards 15 are available, more than purchased |
| LegacyModel.FirstFitting | domain/model.py:72 | the scan stops at the first batch that can take the line, or runs to the end when none can |
| LegacyModel.SortedScanIsPreferred | domain/model.py:72 | scanning `sorted(batches)` lands on the preferred batch, and finds nothing exactly when no batch fits |
| LegacyModel.SelectBatch | domain/model.py:71-74 | returns the preferred batch, which can take the line; None (StopIteration) exactly when no batch fits |
| LegacyModel.Allocate | domain/model.py:70-78 | allocates to the preferred fitting batch (first in sorted order) and returns its reference, others unchanged; raises `OutOfStock("Out of stock for sku <sku>")` and changes no batch when none fits |
| LegacyModel.Deallocate | domain/model.py:81-83 | every listed batch ends in its old state with the line deallocated |
| Repository.InMemoryRepository.Add | tests/unit/test_handlers.py:15-16 | the product is stored under its sku and the store stays keyed by sku |
| Repository.InMemoryRepository.Get | tests/unit/test_handlers.py:18-19 | the product stored under the sku, None when there is none |
| Repository.InMemoryRepository.GetByBatchReference | tests/unit/test_handlers.py:21-32 | a stored product holding a batch with that reference, None exactly when no stored product holds one |
| Repository.InMemoryRepository.List | tests/unit/test_handlers.py:34-35 | every stored product exactly once |
| Repository.TrackingRepository.constructor | src/allocation/adapters/repository.py:31-33 | wraps the store with an empty `seen` |
| Repository.TrackingRepository.Add | src/allocation/adapters/repository.py:35-37 | forwards the product to the wrapped store and inserts it into `seen` |
| Repository.TrackingRepository.Get | src/allocation/adapters/repository.py:39-43 | returns exactly the wrapped store's answer and adds it to `seen` only when a product was found |
| Repository.TrackingRepository.GetByBatchReference | src/allocation/adapters/repository.py:45-51 | passes through the wrapped store's answer and tracks only a hit |
| Repository.TrackingRepository.List | src/allocation/adapters/repository.py:53-54 | delegates, listing every stored product once, and leaves `seen` unchanged |
| UnitOfWork.PublicationsAppend | src/allocation/service_layer/unit_of_work.py:38-42 | publishing two event lists one after the other is publishing their concatenation |
| UnitOfWork.PendingSnoc | src/allocation/service_layer/unit_of_work.py:39-42 | visiting one more product appends exactly its pending events to the delivered ones |
| UnitOfWork.PendingContains | src/allocation/service_layer/unit_of_work.py:39-42 | every event pending on a visited product is among the delivered ones |
| UnitOfWork.PublishedSnoc | src/allocation/service_layer/unit_of_work.py:39-42 | draining one more product extends the trace by exactly that product's pending events |
| UnitOfWork.UnitOfWork.Exit | src/allocation/service_layer/unit_of_work.py:20-21 | leaving the scope appends a rollback, whether or not a commit ran |
| UnitOfWork.UnitOfWork.Rollback | src/allocation/service_layer/unit_of_work.py:35-36 | rollback appends one `_rollback` call |
| UnitOfWork.UnitOfWork.Publish | src/allocation/service_layer/unit_of_work.py:42 | handing one event to the message bus appends exactly that event, as one publication, to the trace |
| UnitOfWork.UnitOfWork.Commit | src/allocation/service_layer/unit_of_work.py:31-33 | `_commit` is recorded before any event is published; every seen product is visited once and its events are published in order; all seen products end with no events |
| UnitOfWork.UnitOfWork.Drain | src/allocation/service_layer/unit_of_work.py:40-42 | one product's events are published oldest first, each exactly once, and its event list ends empty |
| UnitOfWork.UnitOfWork.PublishEvents | src/allocation/service_layer/unit_of_work.py:38-42 | each seen product is visited exactly once; the trace gains exactly the pending events, product by product and in append order; every seen product ends with no events and unchanged batches; products outside `seen` are untouched |
| MessageBus.DispatchSnoc | src/allocation/service_layer/messagebus.py:11-12 | processing one more event adds exactly the calls of its registered handlers, in table order |
| MessageBus.DispatchWithHandlers | src/allocation/service_layer/messagebus.py:11-23 | with the registered table, each processed event gets exactly one call, to the handler registered for its type |
| MessageBus.HandledTypes | src/allocation/service_layer/messagebus.py:18-23 | the table has entries exactly for BatchCreated, AllocationRequired, DeallocationRequired and OutOfStock |
| MessageBus.CallHandlers | src/allocation/service_layer/messagebus.py:11-13 | calls the handlers registered for the event in table order, appending each returned result and queueing the events collected after each call; stops at the first handler that raises, every earlier call of the event having returned, and passes its exception on |
| MessageBus.ProcessEvent | src/allocation/service_layer/messagebus.py:10-13 | after one popped event is processed, result i is still the i-th dispatched call's result, now counting that event's registered handlers, or a call due for that event raised and every call before it returned; the processed events followed by the queue are still the submitted event followed by everything collected so far |
| MessageBus.Handle | src/allocation/service_layer/messagebus.py:6-15 | the queue starts as the submitted event; events are processed in FIFO order, and collected events go to the tail; every registered handler is called once per event, in list order; result i is the i-th call's result; on return the queue is empty and every queued event was processed; an unregistered type raises KeyError; a handler's exception leaves `handle` at once, every earlier call having returned and the raising call being one due for the last popped event |
| Handlers.CommittedThenExited | src/allocation/service_layer/unit_of_work.py:20-33 | a committed handler body's trace: the old trace, then `_commit`, then the publications, then the closing rollback |
| Handlers.CommitAndExit | src/allocation/service_layer/unit_of_work.py:20-42 | commit then leave: the commit visits every seen product once, in some order, and delivers exactly the events pending on them, product by product and oldest first; the trace is `_commit`, those publications, then the closing rollback; seen products end with no events and their batch lists unchanged |
| Handlers.AddBatch | src/allocation/service_layer/handlers.py:10-23 | for an unknown sku, a fresh product is stored under the sku; for a known sku, the stored one is reused and the store is unchanged; the new batch is appended to the product's batches; other products keep their batch lists and every stored batch keeps its state; `seen` gains exactly the product; one commit, then rollback on exit; the commit delivers exactly the events pending on the seen products (the product's own old events, none for a new one), each once; seen products end with no events and unseen stored products keep theirs |
| Handlers.AppendAndCommit | src/allocation/service_layer/handlers.py:22-23 | for a found or created product: the new batch is appended to its batches, no other seen product's batch list changes, and the commit delivers exactly the pending events of the seen products |
| Handlers.ChangeBatchQuantity | src/allocation/service_layer/handlers.py:26-34 | the product holding the reference gets the quantity change of `Product.change_batch_quantity` on its first batch with that reference; its other batches and every stored batch outside its list keep their state; no batch list changes; `seen` gains exactly the product; the commit delivers exactly the events pending before plus the product's `Deallocated` events, one per removed line, in removal order; unseen stored products keep their events |
| Handlers.ChangeQuantityAndCommit | src/allocation/service_layer/handlers.py:31-34 | for a found product: the first batch with the reference gets the quantity change, the product's other batches keep their state, no seen product's batch list changes, and the commit delivers exactly the other seen products' pending events plus the product's old events followed by one `Deallocated` per removed line |
| Handlers.Allocate | src/allocation/service_layer/handlers.py:37-51 | an unknown sku gives `InvalidSku("Invalid sku <sku>")` with only a rollback recorded (no commit), `seen`, every stored product's events and every stored batch unchanged; otherwise it returns the reference `Product.allocate` chose (None when out of stock), every other batch keeps its state, `seen` gains exactly the product, and the commit delivers exactly the events pending before plus the recorded `Allocated` / `OutOfStock` event; unseen stored products keep their events |
| Handlers.AllocateAndCommit | src/allocation/service_layer/handlers.py:48-49 | for a found product: the preferred batch takes the line and its reference is returned, or None with no batch changed; the other batches keep their state; the commit delivers exactly the other seen products' pending events plus the product's old events followed by the recorded event |
| Handlers.Deallocate | src/allocation/service_layer/handlers.py:54-65 | an unknown sku gives `InvalidSku` with no commit and every stored product's events, every stored batch and `seen` unchanged; otherwise every batch of the product ends with the line deallocated, every stored batch outside it keeps its state, `seen` gains exactly the product, and one commit delivers exactly the events pending on the seen products; unseen stored products keep their events |
| Handlers.DeallocateAndCommit | src/allocation/service_layer/handlers.py:64-65 | for a found product: every batch of the product ends with the line deallocated, no seen product's batch list changes, and the commit delivers exactly the pending events of the seen products |
| Services.AddBatch | src/allocation/service_layer/services.py:12-26 | creates the product when the sku is new, otherwise appends to the stored one; other products' batch lists and all stored batches unchanged; `seen` gains exactly the product; commits in both cases, delivering exactly the events pending on the seen products, each once, and leaving no seen product with events; unseen stored products keep their events |
| Services.Allocate | src/allocation/service_layer/services.py:29-43 | `InvalidSku` with no commit, `seen`, every stored product's events and every stored batch unchanged, for an unknown sku; otherwise `Product.allocate`'s reference with every other batch unchanged, `seen` gaining exactly the product, then a commit that delivers exactly the events pending before plus the recorded event; unseen stored products keep their events |
| Services.Deallocate | src/allocation/service_layer/services.py:46-57 | `InvalidSku` with no commit, every stored product's events and every stored batch unchanged for an unknown sku; otherwise every batch of the product ends with the line deallocated, other stored batches unchanged, `seen` gaining exactly the product, then a commit delivering exactly the pending events of the seen products; unseen stored products keep their events |
| BatchRepository.FakeRepository.constructor | repository.py:32-33 | stores the given set of batches, which has at most one batch per reference |
| BatchRepository.FakeRepository.Add | repository.py:35-36 | adds the batch unless one with the same reference is stored, so adding the same batch twice keeps one copy |
| BatchRepository.FakeRepository.Get | repository.py:38-39 | the stored batch with the reference; None (StopIteration) exactly when there is none |
| BatchRepository.FakeRepository.List | repository.py:41-42 | every stored batch once, changing nothing |
| BatchRepository.Session.Commit | services.py:15 | `session.commit()` adds exactly one to the commit count |
| LineServices.IsValidSku | services.py:9-10 | true exactly when some batch has the sku |
| LineServices.AddBatch | services.py:13-15 | stores the batch (set semantics), then one commit |
| LineServices.Allocate | services.py:18-29 | `InvalidSku` before touching batches or committing when no stored batch has the sku; an `OutOfStock` propagates with no commit and no change; otherwise returns the chosen reference, then one commit |
| LineServices.Deallocate | services.py:32-38 | no sku check: every stored batch ends with the line deallocated, then one commit |
| ListServices.AddBatch | service_layer/services.py:16-26 | creates the batch from the arguments, stores it, then one commit |
| ListServices.Allocate | service_layer/services.py:29-45 | `InvalidSku` with no commit when no stored batch has the sku; an `OutOfStock` propagates uncommitted; otherwise returns `model.allocate`'s reference, then one commit |
| ListServices.Deallocate | service_layer/services.py:48-59 | no sku check: the line leaves every stored batch holding it, then one commit |

## Left out

- Persistence and I/O are left out: SQLAlchemy repositories, sessions and the SQLAlchemy unit of work, Flask entrypoints, Redis publishing and consuming, the SQL read model, and the e-mail sent by `send_out_of_stock_notification`. The database session of the earliest services is a commit counter. The handler `send_out_of_stock_notification` only appears as an entry in the bus's table.
- Retries and a separate failure policy for commands and events are not modelled. No file of the repository implements either.
- `bootstrap.py` (dependency injection by reflection) is left out. It refers to a bus class and handler tables that no file defines.
- MessageBus.Handle: the loop need not terminate. A `fuel` bound on the number of processed events makes it total, and running out of fuel is an outcome that Python does not have.
- MessageBus.Handle: handlers and `uow.collect_new_events()` are abstract. The n-th handler call ends as `invoke(n, call)` says (a returned value or a raised exception), and the events collected after a call that returned are `collect(n)`. No shown unit of work defines `collect_new_events`. The handlers are typed for commands but registered for events; the model abstracts them entirely.
- UnitOfWork.UnitOfWork.Publish: `publish_events` calls `messagebus.handle(event)` with one argument, but `handle` takes two. Delivery is modelled as a sink that records each event in the trace, in order.
- UnitOfWork.UnitOfWork.PublishEvents: iteration over `seen` follows no fixed order. The visiting order is a ghost result, stated only to be a duplicate-free listing of `seen`.
- Repository.TrackingRepository: `seen` is a set of object identities. `Product.__eq__`/`__hash__` (sku and batch list) and `Product.__gt__` are left out.
- Repository.InMemoryRepository: the test double is a set of products. The model keys the store by sku, so adding a second product with the same sku replaces the first.
- Handlers.ChangeBatchQuantity: requires that some stored product holds the reference. Python would crash on `None` here; the model does not reproduce that crash.
- Model.Product.ChangeBatchQuantity: requires a batch with the reference (otherwise `next` raises StopIteration) and a quantity >= 0. With a negative quantity the loop empties the batch and `deallocate_one` then returns None, which crashes the event append.
- Model.Product.ChangeBatchQuantity: which lines are removed depends on `set.pop()`. The contract fixes the removed set only up to that choice: distinct held lines, each removed while the sum still exceeded the quantity.
- Model.Product.Allocate, LegacyModel.Allocate: the preferred batch depends on list order among equal etas. For the earliest services that order is whatever the repository's set listing yields, returned as a ghost `listed`.
- Services and Handlers return Python's exceptions as `Failure` values, with their messages.
- Dates are day numbers. Integers are unbounded, as in Python.
- The reallocation scenario in the handler tests relies on a `Deallocated` handler that no file defines, so it is not modelled.

## Findings

| source | as written | input that shows it | evidently intended | confidence | as-written member | corrected member |
|---|---|---|---|---|---|---|
| domain/model.py:66-67 | `can_allocate` checks only sku and `line.qty <= available_quantity` | a batch of 10 units and an order line of quantity -5: the line is accepted and available stock becomes 15, more than was purchased | only positive quantities are allocated, so allocation never raises available stock (the later version adds `0 <` at src/allocation/domain/model.py:65) | not executed | LegacyModel.NegativeLineInflatesStock | Model.AllocateTakesStock |
