/** The earliest repository (repository.py): a fake store holding a Python
    set of batches, and the database session the services commit. Batches
    compare and hash by reference, so the set holds at most one batch per
    reference. */
module BatchRepository {
  import opened Basics
  import LegacyModel

  class FakeRepository {
    var batches: set<LegacyModel.Batch>

    /** No two stored batches share a reference (they would be equal). */
    ghost predicate Valid()
      reads this
    {
      forall a, b :: a in batches && b in batches && a.reference == b.reference ==> a == b
    }

    constructor (batches: set<LegacyModel.Batch>)
      requires forall a, b :: a in batches && b in batches && a.reference == b.reference ==> a == b
      ensures Valid() && this.batches == batches
    {
      this.batches := batches;
    }

    /** `set.add`: a batch equal to a stored one (same reference) leaves the
        set as it is; otherwise the batch joins it. */
    method Add(batch: LegacyModel.Batch)
      requires Valid()
      modifies this
      ensures batch in old(batches) ==> batches == old(batches)
      ensures (exists b :: b in old(batches) && b.reference == batch.reference) ==> batches == old(batches)
      ensures (forall b :: b in old(batches) ==> b.reference != batch.reference) ==> batches == old(batches) + {batch}
      ensures Valid() && exists b :: b in batches && b.reference == batch.reference
    {
      if b :| b in batches && b.reference == batch.reference {
      } else {
        batches := batches + {batch};
      }
    }

    /** The stored batch with this reference; None stands for the
        StopIteration `next` raises when there is none. */
    method Get(reference: string) returns (r: Option<LegacyModel.Batch>)
      requires Valid()
      ensures r.Some? ==> r.value in batches && r.value.reference == reference
      ensures r.Some? ==> forall b :: b in batches && b.reference == reference ==> b == r.value
      ensures r.None? <==> forall b :: b in batches ==> b.reference != reference
    {
      if b :| b in batches && b.reference == reference {
        return Some(b);
      }
      return None;
    }

    /** Every stored batch once, in no particular order. */
    method List() returns (bs: seq<LegacyModel.Batch>)
      ensures Distinct(bs) && Elems(bs) == batches
    {
      bs := [];
      var rest := batches;
      while rest != {}
        invariant rest <= batches
        invariant Distinct(bs) && Elems(bs) == batches - rest
        decreases rest
      {
        var b :| b in rest;
        DistinctSnoc(bs, b);
        bs := bs + [b];
        rest := rest - {b};
      }
    }
  }

  /** The database session; only its commits are observable here. */
  class Session {
    var commits: nat

    constructor ()
      ensures commits == 0
    {
      commits := 0;
    }

    method Commit()
      modifies this
      ensures commits == old(commits) + 1
    {
      commits := commits + 1;
    }
  }
}
