/** The service-layer handlers (src/allocation/service_layer/handlers.py).
    Each runs inside `with uow:`, so leaving it always rolls back; a
    handler that raises never reaches `commit`. */
module Handlers {
  import opened Basics
  import opened Lines
  import opened Model
  import opened Repository
  import opened UnitOfWork
  import Messages

  /** The `InvalidSku` exception, with its message. */
  datatype InvalidSku = InvalidSku(message: string)

  /** The trace of a handler body that committed (publishing `delivered`)
      and then left the `with` block. */
  function CommittedThenExited(before: seq<Step>, delivered: seq<Messages.Event>): (trace: seq<Step>)
    ensures |trace| == |before| + |delivered| + 2
    ensures trace[..|before|] == before && trace[|before|] == Committed && trace[|trace| - 1] == RolledBack
  {
    before + [Committed] + Publications(delivered) + [RolledBack]
  }

  /** The commit visited every product of `seen` exactly once, in `order`,
      and delivered exactly the events `pending` lists for them, product by
      product, each product's events oldest first. */
  ghost predicate Delivers(order: seq<Product>, seen: set<Product>,
                           pending: map<Product, seq<Messages.Event>>, delivered: seq<Messages.Event>)
  {
    Distinct(order) && Elems(order) == seen && (forall p :: p in order ==> p in pending) &&
    delivered == Pending(order, pending)
  }

  /** `pending` lists the events pending on every tracked product except
      `product`, which the handler has just fetched. */
  ghost predicate PendingBesides(uow: UnitOfWork, product: Product, pending: map<Product, seq<Messages.Event>>)
    reads uow, uow.products, uow.products.seen
  {
    uow.products.seen == pending.Keys + {product} &&
    forall q :: q in pending && q != product ==> q.events == pending[q]
  }

  lemma PendingIs(uow: UnitOfWork, product: Product, pending: map<Product, seq<Messages.Event>>)
    requires PendingBesides(uow, product, pending)
    ensures uow.PendingEvents() == pending[product := product.events]
  {
  }

  /** `commit()` followed by leaving the `with` block; every event pending
      on a tracked product is delivered, once, and nothing else. */
  method CommitAndExit(uow: UnitOfWork) returns (ghost delivered: seq<Messages.Event>, ghost order: seq<Product>)
    modifies uow, uow.products.seen
    ensures uow.products.seen == old(uow.products.seen)
    ensures uow.trace == CommittedThenExited(old(uow.trace), delivered)
    ensures Delivers(order, uow.products.seen, old(uow.PendingEvents()), delivered)
    ensures forall p, e :: p in uow.products.seen && e in old(p.events) ==> e in delivered
    ensures forall p :: p in uow.products.seen ==> p.events == [] && p.batches == old(p.batches)
  {
    ghost var pending := uow.PendingEvents();
    delivered, order := uow.Commit();
    forall p, e | p in uow.products.seen && e in old(p.events) ensures e in delivered {
      assert p in Elems(order);
      PendingContains(order, p, pending, e);
    }
    uow.Exit();
  }

  /** add_batch: creates the product when the sku is new, appends the new
      batch to it and commits. */
  method AddBatch(message: Messages.Command, uow: UnitOfWork)
    returns (ghost product: Product, ghost delivered: seq<Messages.Event>, ghost order: seq<Product>)
    requires message.CreateBatch? && uow.Valid()
    modifies uow, uow.products, uow.products.repo, uow.products.seen, uow.Stored()
    ensures uow.Valid() && product.sku == message.sku && product in uow.products.seen
    ensures message.sku in old(uow.products.repo.products) ==>
      product == old(uow.products.repo.products[message.sku]) &&
      uow.products.repo.products == old(uow.products.repo.products) &&
      |product.batches| == |old(product.batches)| + 1 &&
      product.batches[..|product.batches| - 1] == old(product.batches)
    ensures message.sku !in old(uow.products.repo.products) ==>
      fresh(product) && uow.products.repo.products == old(uow.products.repo.products)[message.sku := product] &&
      |product.batches| == 1
    ensures |product.batches| > 0 && var b := product.batches[|product.batches| - 1];
      fresh(b) && b.State() == BatchState(message.reference, message.sku, message.eta, message.qty, {})
    ensures forall p :: p in old(uow.Stored()) && p != product ==> p.batches == old(p.batches)
    ensures forall c :: c in old(uow.StoredBatches()) ==> c.State() == old(c.State())
    ensures uow.products.seen == old(uow.products.seen) + {product}
    ensures uow.trace == CommittedThenExited(old(uow.trace), delivered)
    ensures forall p, e :: p in uow.products.seen && old(allocated(p)) && e in old(p.events) ==> e in delivered
    ensures forall p :: p in uow.products.seen ==> p.events == []
    ensures forall p :: p in old(uow.Stored()) && p !in uow.products.seen ==> p.events == old(p.events)
    ensures Delivers(order, uow.products.seen,
                     old(uow.PendingEvents())[product := if message.sku in old(uow.products.repo.products)
                                                         then old(product.events) else []],
                     delivered)
  {
    var batch := new Batch(message.reference, message.sku, message.qty, message.eta);
    ghost var pending := uow.PendingEvents();
    var found := uow.products.Get(message.sku);
    var p: Product;
    if found.None? {
      p := new Product(message.sku, []);
      uow.products.Add(p);
    } else {
      p := found.value;
    }
    delivered, order := AppendAndCommit(p, batch, uow, pending);
    product := p;
  }

  /** The part of add_batch after the product was found or created: the new
      batch is appended to its batches, then commit and leave the `with`
      block. */
  method AppendAndCommit(product: Product, batch: Batch, uow: UnitOfWork,
                         ghost pending: map<Product, seq<Messages.Event>>)
    returns (ghost delivered: seq<Messages.Event>, ghost order: seq<Product>)
    requires product in uow.products.seen && PendingBesides(uow, product, pending)
    modifies uow, uow.products.seen
    ensures uow.products.seen == old(uow.products.seen)
    ensures product.batches == old(product.batches) + [batch]
    ensures forall p :: p in uow.products.seen && p != product ==> p.batches == old(p.batches)
    ensures uow.trace == CommittedThenExited(old(uow.trace), delivered)
    ensures forall p, e :: p in uow.products.seen && e in old(p.events) ==> e in delivered
    ensures forall p :: p in uow.products.seen ==> p.events == []
    ensures Delivers(order, uow.products.seen, pending[product := old(product.events)], delivered)
  {
    product.batches := product.batches + [batch];
    PendingIs(uow, product, pending);
    delivered, order := CommitAndExit(uow);
  }

  /** change_batch_quantity: finds the product holding the batch and changes
      the batch's purchased quantity, then commits. The source does not
      guard a missing product, so one must exist. */
  method ChangeBatchQuantity(message: Messages.Command, uow: UnitOfWork)
    returns (ghost product: Product, ghost removed: seq<OrderLine>, ghost delivered: seq<Messages.Event>,
             ghost order: seq<Product>)
    requires message.ChangeBatchQuantity? && message.qty >= 0
    requires exists p :: p in uow.Stored() && HasBatch(p, message.reference)
    modifies uow, uow.products, uow.products.seen, uow.Stored(), uow.StoredBatches()
    ensures uow.products.repo.products == old(uow.products.repo.products)
    ensures product in old(uow.Stored()) && product in uow.products.seen
    ensures product.batches == old(product.batches) && HasBatch(product, message.reference)
    ensures var b := product.batches[FindReference(product.batches, message.reference)];
      b.reference == message.reference && b.purchased == message.qty &&
      b.allocations == old(b.allocations) - Elems(removed) && Elems(removed) <= old(b.allocations) &&
      SumQty(b.allocations) <= message.qty &&
      RemovedWhileOver(old(b.allocations), removed, message.qty) &&
      (forall c <- product.batches :: c != b ==> c.State() == old(c.State()))
    ensures forall c :: c in old(uow.StoredBatches()) && c !in product.batches ==> c.State() == old(c.State())
    ensures uow.products.seen == old(uow.products.seen) + {product}
    ensures forall l :: l in removed ==> Messages.Deallocated(l.orderid, l.sku, l.qty) in delivered
    ensures forall p :: p in old(uow.Stored()) ==> p.batches == old(p.batches)
    ensures uow.trace == CommittedThenExited(old(uow.trace), delivered)
    ensures forall p :: p in uow.products.seen ==> p.events == []
    ensures forall p :: p in old(uow.Stored()) && p !in uow.products.seen ==> p.events == old(p.events)
    ensures Delivers(order, uow.products.seen,
                     old(uow.PendingEvents())[product := old(product.events) + DeallocatedEvents(removed)],
                     delivered)
  {
    ghost var pending := uow.PendingEvents();
    var found := uow.products.GetByBatchReference(message.reference);
    var p := found.value;
    removed, delivered, order := ChangeQuantityAndCommit(p, message.reference, message.qty, uow, pending);
    product := p;
  }

  /** The part of change_batch_quantity after the product was found:
      `product.change_batch_quantity`, then commit and leave the `with`
      block. */
  method ChangeQuantityAndCommit(product: Product, reference: string, qty: int, uow: UnitOfWork,
                                  ghost pending: map<Product, seq<Messages.Event>>)
    returns (ghost removed: seq<OrderLine>, ghost delivered: seq<Messages.Event>, ghost order: seq<Product>)
    requires product in uow.products.seen && HasBatch(product, reference) && qty >= 0
    requires PendingBesides(uow, product, pending)
    modifies uow, uow.products.seen, product.batches
    ensures uow.products.seen == old(uow.products.seen)
    ensures forall p :: p in uow.products.seen ==> p.batches == old(p.batches)
    ensures var b := product.batches[FindReference(product.batches, reference)];
      b.reference == reference && b.purchased == qty &&
      b.allocations == old(b.allocations) - Elems(removed) && Elems(removed) <= old(b.allocations) &&
      SumQty(b.allocations) <= qty &&
      RemovedWhileOver(old(b.allocations), removed, qty) &&
      (forall c <- product.batches :: c != b ==> c.State() == old(c.State()))
    ensures forall l :: l in removed ==> Messages.Deallocated(l.orderid, l.sku, l.qty) in delivered
    ensures uow.trace == CommittedThenExited(old(uow.trace), delivered)
    ensures forall p :: p in uow.products.seen ==> p.events == []
    ensures Delivers(order, uow.products.seen,
                     pending[product := old(product.events) + DeallocatedEvents(removed)], delivered)
  {
    removed := product.ChangeBatchQuantity(reference, qty);
    PendingIs(uow, product, pending);
    forall l | l in removed ensures Messages.Deallocated(l.orderid, l.sku, l.qty) in product.events {
      var i :| 0 <= i < |removed| && removed[i] == l;
      DeallocatedEventsAt(removed, i);
    }
    delivered, order := CommitAndExit(uow);
  }

  /** allocate: InvalidSku for an unknown sku, before any commit; otherwise
      the reference Product.allocate chose (None when out of stock), after
      a commit that delivers the event it recorded. */
  method Allocate(message: Messages.Command, uow: UnitOfWork)
    returns (r: Result<Option<string>, InvalidSku>, ghost delivered: seq<Messages.Event>, ghost order: seq<Product>)
    requires message.Allocate?
    modifies uow, uow.products, uow.products.seen, uow.Stored(), uow.StoredBatches()
    ensures uow.products.repo.products == old(uow.products.repo.products)
    ensures forall p :: p in old(uow.Stored()) ==> p.batches == old(p.batches)
    ensures message.sku !in old(uow.products.repo.products) ==>
      r == Failure(InvalidSku("Invalid sku " + message.sku)) &&
      uow.trace == old(uow.trace) + [RolledBack] && uow.products.seen == old(uow.products.seen) &&
      (forall p :: p in uow.products.seen ==> p.events == old(p.events)) &&
      (forall p :: p in old(uow.Stored()) ==> p.events == old(p.events)) &&
      forall c :: c in old(uow.StoredBatches()) ==> c.State() == old(c.State())
    ensures forall p :: p in old(uow.Stored()) && p !in uow.products.seen ==> p.events == old(p.events)
    ensures message.sku in old(uow.products.repo.products) ==>
      var product := uow.products.repo.products[message.sku];
      var line := OrderLine(message.orderid, message.sku, message.qty);
      var k := old(Preferred(product.batches, line));
      var e := if k < |product.batches|
               then Messages.Allocated(line.orderid, line.sku, line.qty, product.batches[k].reference)
               else Messages.OutOfStock(message.sku);
      (forall p :: p in uow.products.seen ==> p.events == []) &&
      Delivers(order, uow.products.seen, old(uow.PendingEvents())[product := old(product.events) + [e]], delivered) &&
      uow.products.seen == old(uow.products.seen) + {product} && r.Success? && k <= |product.batches| &&
      uow.trace == CommittedThenExited(old(uow.trace), delivered) &&
      (forall c :: c in old(uow.StoredBatches()) && c !in product.batches ==> c.State() == old(c.State())) &&
      (k == |product.batches| ==>
        r.value == None && Messages.OutOfStock(message.sku) in delivered &&
        forall b <- product.batches :: b.State() == old(b.State())) &&
      (k < |product.batches| ==>
        var chosen := product.batches[k];
        r.value == Some(chosen.reference) &&
        old(chosen.State().CanAllocate(line)) &&
        chosen.State() == old(chosen.State()).Allocate(line) &&
        Messages.Allocated(line.orderid, line.sku, line.qty, chosen.reference) in delivered &&
        forall b <- product.batches :: b != chosen ==> b.State() == old(b.State()))
  {
    var line := OrderLine(message.orderid, message.sku, message.qty);
    ghost var pending0 := uow.PendingEvents();
    var found := uow.products.Get(message.sku);
    if found.None? {
      uow.Exit();
      return Failure(InvalidSku("Invalid sku " + line.sku)), [], [];
    }
    var product := found.value;
    var batchref;
    batchref, delivered, order := AllocateAndCommit(product, line, uow, pending0);
    return Success(batchref), delivered, order;
  }

  /** The part of allocate after the product was found: `product.allocate`,
      then commit and leave the `with` block. */
  method AllocateAndCommit(product: Product, line: OrderLine, uow: UnitOfWork,
                            ghost pending: map<Product, seq<Messages.Event>>)
    returns (r: Option<string>, ghost delivered: seq<Messages.Event>, ghost order: seq<Product>)
    requires product in uow.products.seen
    requires PendingBesides(uow, product, pending)
    modifies uow, uow.products.seen, product.batches
    ensures uow.products.seen == old(uow.products.seen)
    ensures forall p :: p in uow.products.seen ==> p.batches == old(p.batches)
    ensures uow.trace == CommittedThenExited(old(uow.trace), delivered)
    ensures var k := old(Preferred(product.batches, line));
      k <= |product.batches| &&
      (k == |product.batches| ==>
        r == None && Messages.OutOfStock(line.sku) in delivered &&
        forall b <- product.batches :: b.State() == old(b.State())) &&
      (k < |product.batches| ==>
        var chosen := product.batches[k];
        r == Some(chosen.reference) &&
        old(chosen.State().CanAllocate(line)) &&
        chosen.State() == old(chosen.State()).Allocate(line) &&
        Messages.Allocated(line.orderid, line.sku, line.qty, chosen.reference) in delivered &&
        forall b <- product.batches :: b != chosen ==> b.State() == old(b.State()))
    ensures forall p :: p in uow.products.seen ==> p.events == []
    ensures var k := old(Preferred(product.batches, line));
      var e := if k < |product.batches|
               then Messages.Allocated(line.orderid, line.sku, line.qty, product.batches[k].reference)
               else Messages.OutOfStock(line.sku);
      Delivers(order, uow.products.seen, pending[product := old(product.events) + [e]], delivered)
  {
    r := product.Allocate(line);
    PendingIs(uow, product, pending);
    delivered, order := CommitAndExit(uow);
  }

  /** deallocate: InvalidSku for an unknown sku; otherwise the line leaves
      every batch of the product that holds it, then a commit. */
  method Deallocate(message: Messages.Command, uow: UnitOfWork)
    returns (r: Result<(), InvalidSku>, ghost delivered: seq<Messages.Event>, ghost order: seq<Product>)
    requires message.Deallocate?
    modifies uow, uow.products, uow.products.seen, uow.Stored(), uow.StoredBatches()
    ensures uow.products.repo.products == old(uow.products.repo.products)
    ensures forall p :: p in old(uow.Stored()) ==> p.batches == old(p.batches)
    ensures message.sku !in old(uow.products.repo.products) ==>
      r == Failure(InvalidSku("Invalid sku " + message.sku)) &&
      uow.trace == old(uow.trace) + [RolledBack] && uow.products.seen == old(uow.products.seen) &&
      (forall p :: p in old(uow.Stored()) ==> p.events == old(p.events)) &&
      forall c :: c in old(uow.StoredBatches()) ==> c.State() == old(c.State())
    ensures forall p :: p in old(uow.Stored()) && p !in uow.products.seen ==> p.events == old(p.events)
    ensures message.sku in old(uow.products.repo.products) ==>
      var product := uow.products.repo.products[message.sku];
      var line := OrderLine(message.orderid, message.sku, message.qty);
      r.Success? && uow.products.seen == old(uow.products.seen) + {product} &&
      (forall p :: p in uow.products.seen ==> p.events == []) &&
      Delivers(order, uow.products.seen, old(uow.PendingEvents())[product := old(product.events)], delivered) &&
      uow.trace == CommittedThenExited(old(uow.trace), delivered) &&
      (forall c :: c in old(uow.StoredBatches()) && c !in product.batches ==> c.State() == old(c.State())) &&
      forall b <- product.batches :: b.State() == old(b.State()).Deallocate(line)
  {
    var line := OrderLine(message.orderid, message.sku, message.qty);
    ghost var pending := uow.PendingEvents();
    var found := uow.products.Get(message.sku);
    if found.None? {
      uow.Exit();
      return Failure(InvalidSku("Invalid sku " + line.sku)), [], [];
    }
    var product := found.value;
    delivered, order := DeallocateAndCommit(product, line, uow, pending);
    return Success(()), delivered, order;
  }

  /** The part of deallocate after the product was found:
      `product.deallocate`, then commit and leave the `with` block. */
  method DeallocateAndCommit(product: Product, line: OrderLine, uow: UnitOfWork,
                             ghost pending: map<Product, seq<Messages.Event>>)
    returns (ghost delivered: seq<Messages.Event>, ghost order: seq<Product>)
    requires product in uow.products.seen && PendingBesides(uow, product, pending)
    modifies uow, uow.products.seen, product.batches
    ensures uow.products.seen == old(uow.products.seen)
    ensures forall p :: p in uow.products.seen ==> p.batches == old(p.batches)
    ensures forall b <- product.batches :: b.State() == old(b.State()).Deallocate(line)
    ensures uow.trace == CommittedThenExited(old(uow.trace), delivered)
    ensures forall p :: p in uow.products.seen ==> p.events == []
    ensures Delivers(order, uow.products.seen, pending[product := old(product.events)], delivered)
  {
    product.Deallocate(line);
    PendingIs(uow, product, pending);
    delivered, order := CommitAndExit(uow);
  }
}
