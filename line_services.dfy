/** The earliest service layer (services.py): functions taking an order
    line or a batch, over the fake batch repository and a session. */
module LineServices {
  import opened Basics
  import opened Lines
  import LegacyModel
  import BatchRepository

  /** The exceptions `allocate` lets out: its own InvalidSku, or the
      domain's OutOfStock passed through. */
  datatype Error =
    | InvalidSku(message: string)
    | OutOfStock(error: LegacyModel.OutOfStock)

  /** is_valid_sku: some listed batch has this sku. */
  function IsValidSku(sku: string, batches: seq<LegacyModel.Batch>): (valid: bool)
    ensures valid <==> exists i :: 0 <= i < |batches| && batches[i].sku == sku
  {
    sku in (set b | b in batches :: b.sku)
  }

  /** add_batch: stores the batch, then commits. */
  method AddBatch(batch: LegacyModel.Batch, repo: BatchRepository.FakeRepository, session: BatchRepository.Session)
    requires repo.Valid()
    modifies repo, session
    ensures repo.Valid() && exists b :: b in repo.batches && b.reference == batch.reference
    ensures (forall b :: b in old(repo.batches) ==> b.reference != batch.reference) ==>
      repo.batches == old(repo.batches) + {batch}
    ensures (exists b :: b in old(repo.batches) && b.reference == batch.reference) ==>
      repo.batches == old(repo.batches)
    ensures session.commits == old(session.commits) + 1
  {
    repo.Add(batch);
    session.Commit();
  }

  /** allocate: InvalidSku before touching any batch when no stored batch
      has the sku; otherwise the domain's allocate over the listed batches,
      whose OutOfStock propagates without a commit. `listed` (ghost) is the
      order the store listed the batches in, which breaks ties between
      equal etas. */
  method Allocate(line: OrderLine, repo: BatchRepository.FakeRepository, session: BatchRepository.Session)
    returns (r: Result<string, Error>, ghost listed: seq<LegacyModel.Batch>)
    modifies repo.batches, session
    ensures Distinct(listed) && Elems(listed) == old(repo.batches) == repo.batches && old(allocated(listed))
    ensures (forall b :: b in repo.batches ==> b.sku != line.sku) ==>
      r == Failure(InvalidSku("Invalid sku " + line.sku)) &&
      session.commits == old(session.commits) &&
      forall b <- repo.batches :: b.State() == old(b.State())
    ensures (exists b :: b in repo.batches && b.sku == line.sku) ==>
      var k := old(LegacyModel.Preferred(listed, line));
      k <= |listed| &&
      (k == |listed| ==>
        r == Failure(OutOfStock(LegacyModel.OutOfStock("Out of stock for sku " + line.sku))) &&
        session.commits == old(session.commits) &&
        forall b <- repo.batches :: b.State() == old(b.State())) &&
      (k < |listed| ==>
        r == Success(listed[k].reference) &&
        session.commits == old(session.commits) + 1 &&
        old(listed[k].State().CanAllocate(line)) &&
        listed[k].State() == old(listed[k].State()).Allocate(line) &&
        forall b <- repo.batches :: b != listed[k] ==> b.State() == old(b.State()))
  {
    var batches := repo.List();
    listed := batches;
    forall i | 0 <= i < |listed| ensures old(allocated(listed[i])) {
      assert listed[i] in Elems(listed);
      assert listed[i] in old(repo.batches);
    }
    assert old(allocated(listed));
    assert LegacyModel.Preferred(batches, line) == old(LegacyModel.Preferred(listed, line));
    if !IsValidSku(line.sku, batches) {
      return Failure(InvalidSku("Invalid sku " + line.sku)), listed;
    }
    var batchref := LegacyModel.Allocate(line, batches);
    if batchref.Failure? {
      return Failure(OutOfStock(batchref.error)), listed;
    }
    session.Commit();
    return Success(batchref.value), listed;
  }

  /** deallocate: no sku check; the line leaves every stored batch holding
      it, then a commit. */
  method Deallocate(line: OrderLine, repo: BatchRepository.FakeRepository, session: BatchRepository.Session)
    modifies repo.batches, session
    ensures forall b <- repo.batches :: b.State() == old(b.State()).Deallocate(line)
    ensures session.commits == old(session.commits) + 1
  {
    var batches := repo.List();
    LegacyModel.Deallocate(line, batches);
    session.Commit();
  }
}
