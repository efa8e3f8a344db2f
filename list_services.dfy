/** The second service layer (service_layer/services.py): the same
    operations as services.py, taking primitive arguments. Each builds the
    order line or batch and delegates to the services.py function with the
    same body. */
module ListServices {
  import opened Basics
  import opened Lines
  import LegacyModel
  import BatchRepository
  import LineServices

  /** add_batch: creates the batch, stores it, then commits. The source
      returns nothing; `batch` names the created batch for the contract. */
  method AddBatch(reference: string, sku: string, qty: int, eta: Option<int>,
                  repo: BatchRepository.FakeRepository, session: BatchRepository.Session)
    returns (ghost batch: LegacyModel.Batch)
    requires repo.Valid()
    modifies repo, session
    ensures fresh(batch) && batch.State() == LegacyModel.BatchState(reference, sku, eta, qty, {})
    ensures repo.Valid() && exists b :: b in repo.batches && b.reference == reference
    ensures (forall b :: b in old(repo.batches) ==> b.reference != reference) ==>
      repo.batches == old(repo.batches) + {batch}
    ensures (exists b :: b in old(repo.batches) && b.reference == reference) ==>
      repo.batches == old(repo.batches)
    ensures session.commits == old(session.commits) + 1
  {
    var created := new LegacyModel.Batch(reference, sku, qty, eta);
    LineServices.AddBatch(created, repo, session);
    batch := created;
  }

  method Allocate(orderid: string, sku: string, qty: int,
                  repo: BatchRepository.FakeRepository, session: BatchRepository.Session)
    returns (r: Result<string, LineServices.Error>, ghost listed: seq<LegacyModel.Batch>)
    modifies repo.batches, session
    ensures Distinct(listed) && Elems(listed) == old(repo.batches) == repo.batches && old(allocated(listed))
    ensures (forall b :: b in repo.batches ==> b.sku != sku) ==>
      r == Failure(LineServices.InvalidSku("Invalid sku " + sku)) &&
      session.commits == old(session.commits) &&
      forall b <- repo.batches :: b.State() == old(b.State())
    ensures (exists b :: b in repo.batches && b.sku == sku) ==>
      var line := OrderLine(orderid, sku, qty);
      var k := old(LegacyModel.Preferred(listed, line));
      k <= |listed| &&
      (k == |listed| ==>
        r == Failure(LineServices.OutOfStock(LegacyModel.OutOfStock("Out of stock for sku " + sku))) &&
        session.commits == old(session.commits) &&
        forall b <- repo.batches :: b.State() == old(b.State())) &&
      (k < |listed| ==>
        r == Success(listed[k].reference) &&
        session.commits == old(session.commits) + 1 &&
        old(listed[k].State().CanAllocate(line)) &&
        listed[k].State() == old(listed[k].State()).Allocate(line) &&
        forall b <- repo.batches :: b != listed[k] ==> b.State() == old(b.State()))
  {
    r, listed := LineServices.Allocate(OrderLine(orderid, sku, qty), repo, session);
  }

  method Deallocate(orderid: string, sku: string, qty: int,
                    repo: BatchRepository.FakeRepository, session: BatchRepository.Session)
    modifies repo.batches, session
    ensures forall b <- repo.batches :: b.State() == old(b.State()).Deallocate(OrderLine(orderid, sku, qty))
    ensures session.commits == old(session.commits) + 1
  {
    LineServices.Deallocate(OrderLine(orderid, sku, qty), repo, session);
  }
}
