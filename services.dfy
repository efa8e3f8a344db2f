/** The service functions of src/allocation/service_layer/services.py: the
    same unit-of-work scripts as the handlers, taking primitive arguments
    instead of a message. Each delegates to the handler with the same
    body, building the message from its arguments. */
module Services {
  import opened Basics
  import opened Lines
  import opened Model
  import opened UnitOfWork
  import Messages
  import Handlers

  /** This module's own `InvalidSku` exception. */
  datatype InvalidSku = InvalidSku(message: string)

  method AddBatch(reference: string, sku: string, qty: int, eta: Option<int>, uow: UnitOfWork)
    returns (ghost product: Product, ghost delivered: seq<Messages.Event>, ghost order: seq<Product>)
    requires uow.Valid()
    modifies uow, uow.products, uow.products.repo, uow.products.seen, uow.Stored()
    ensures uow.Valid() && product.sku == sku && product in uow.products.seen
    ensures sku in old(uow.products.repo.products) ==>
      product == old(uow.products.repo.products[sku]) &&
      uow.products.repo.products == old(uow.products.repo.products) &&
      |product.batches| == |old(product.batches)| + 1 &&
      product.batches[..|product.batches| - 1] == old(product.batches)
    ensures sku !in old(uow.products.repo.products) ==>
      fresh(product) && uow.products.repo.products == old(uow.products.repo.products)[sku := product] &&
      |product.batches| == 1
    ensures |product.batches| > 0 && var b := product.batches[|product.batches| - 1];
      fresh(b) && b.State() == BatchState(reference, sku, eta, qty, {})
    ensures forall p :: p in old(uow.Stored()) && p != product ==> p.batches == old(p.batches)
    ensures forall c :: c in old(uow.StoredBatches()) ==> c.State() == old(c.State())
    ensures uow.products.seen == old(uow.products.seen) + {product}
    ensures uow.trace == Handlers.CommittedThenExited(old(uow.trace), delivered)
    ensures forall p, e :: p in uow.products.seen && old(allocated(p)) && e in old(p.events) ==> e in delivered
    ensures forall p :: p in uow.products.seen ==> p.events == []
    ensures forall p :: p in old(uow.Stored()) && p !in uow.products.seen ==> p.events == old(p.events)
    ensures Handlers.Delivers(order, uow.products.seen,
                              old(uow.PendingEvents())[product := if sku in old(uow.products.repo.products)
                                                                  then old(product.events) else []],
                              delivered)
  {
    product, delivered, order := Handlers.AddBatch(Messages.CreateBatch(reference, sku, qty, eta), uow);
  }

  method Allocate(orderid: string, sku: string, qty: int, uow: UnitOfWork)
    returns (r: Result<Option<string>, InvalidSku>, ghost delivered: seq<Messages.Event>, ghost order: seq<Product>)
    modifies uow, uow.products, uow.products.seen, uow.Stored(), uow.StoredBatches()
    ensures uow.products.repo.products == old(uow.products.repo.products)
    ensures forall p :: p in old(uow.Stored()) ==> p.batches == old(p.batches)
    ensures sku !in old(uow.products.repo.products) ==>
      r == Failure(InvalidSku("Invalid sku " + sku)) &&
      uow.trace == old(uow.trace) + [RolledBack] && uow.products.seen == old(uow.products.seen) &&
      (forall p :: p in uow.products.seen ==> p.events == old(p.events)) &&
      (forall p :: p in old(uow.Stored()) ==> p.events == old(p.events)) &&
      forall c :: c in old(uow.StoredBatches()) ==> c.State() == old(c.State())
    ensures forall p :: p in old(uow.Stored()) && p !in uow.products.seen ==> p.events == old(p.events)
    ensures sku in old(uow.products.repo.products) ==>
      var product := uow.products.repo.products[sku];
      var line := OrderLine(orderid, sku, qty);
      var k := old(Preferred(product.batches, line));
      var e := if k < |product.batches|
               then Messages.Allocated(orderid, sku, qty, product.batches[k].reference)
               else Messages.OutOfStock(sku);
      (forall p :: p in uow.products.seen ==> p.events == []) &&
      Handlers.Delivers(order, uow.products.seen, old(uow.PendingEvents())[product := old(product.events) + [e]],
                        delivered) &&
      uow.products.seen == old(uow.products.seen) + {product} && r.Success? && k <= |product.batches| &&
      uow.trace == Handlers.CommittedThenExited(old(uow.trace), delivered) &&
      (forall c :: c in old(uow.StoredBatches()) && c !in product.batches ==> c.State() == old(c.State())) &&
      (k == |product.batches| ==>
        r.value == None && Messages.OutOfStock(sku) in delivered &&
        forall b <- product.batches :: b.State() == old(b.State())) &&
      (k < |product.batches| ==>
        var chosen := product.batches[k];
        r.value == Some(chosen.reference) &&
        old(chosen.State().CanAllocate(line)) &&
        chosen.State() == old(chosen.State()).Allocate(line) &&
        Messages.Allocated(orderid, sku, qty, chosen.reference) in delivered &&
        forall b <- product.batches :: b != chosen ==> b.State() == old(b.State()))
  {
    var h;
    h, delivered, order := Handlers.Allocate(Messages.Allocate(orderid, sku, qty), uow);
    r := if h.Success? then Success(h.value) else Failure(InvalidSku(h.error.message));
  }

  method Deallocate(orderid: string, sku: string, qty: int, uow: UnitOfWork)
    returns (r: Result<(), InvalidSku>, ghost delivered: seq<Messages.Event>, ghost order: seq<Product>)
    modifies uow, uow.products, uow.products.seen, uow.Stored(), uow.StoredBatches()
    ensures uow.products.repo.products == old(uow.products.repo.products)
    ensures forall p :: p in old(uow.Stored()) ==> p.batches == old(p.batches)
    ensures sku !in old(uow.products.repo.products) ==>
      r == Failure(InvalidSku("Invalid sku " + sku)) &&
      uow.trace == old(uow.trace) + [RolledBack] && uow.products.seen == old(uow.products.seen) &&
      (forall p :: p in old(uow.Stored()) ==> p.events == old(p.events)) &&
      forall c :: c in old(uow.StoredBatches()) ==> c.State() == old(c.State())
    ensures forall p :: p in old(uow.Stored()) && p !in uow.products.seen ==> p.events == old(p.events)
    ensures sku in old(uow.products.repo.products) ==>
      var product := uow.products.repo.products[sku];
      r.Success? && uow.products.seen == old(uow.products.seen) + {product} &&
      (forall p :: p in uow.products.seen ==> p.events == []) &&
      Handlers.Delivers(order, uow.products.seen, old(uow.PendingEvents())[product := old(product.events)], delivered) &&
      uow.trace == Handlers.CommittedThenExited(old(uow.trace), delivered) &&
      (forall c :: c in old(uow.StoredBatches()) && c !in product.batches ==> c.State() == old(c.State())) &&
      forall b <- product.batches :: b.State() == old(b.State()).Deallocate(OrderLine(orderid, sku, qty))
  {
    var h;
    h, delivered, order := Handlers.Deallocate(Messages.Deallocate(orderid, sku, qty), uow);
    r := if h.Success? then Success(()) else Failure(InvalidSku(h.error.message));
  }
}
