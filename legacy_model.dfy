/** The earlier allocation model (domain/model.py): the same batches and
    preference order, but allocation is a module-level function over a list
    of batches that raises OutOfStock, and `can_allocate` does not check that
    the line's quantity is positive. */
module LegacyModel {
  import opened Basics
  import opened Lines
  import Ordering

  /** The exception raised when no batch can take a line. */
  datatype OutOfStock = OutOfStock(message: string)

  datatype BatchState = BatchState(
    reference: string, sku: string, eta: Option<int>,
    purchased: int, allocations: set<OrderLine>)
  {
    ghost function Available(): int
    {
      purchased - SumQty(allocations)
    }

    /** No `0 < line.qty` test here. */
    ghost predicate CanAllocate(line: OrderLine)
    {
      sku == line.sku && line.qty <= Available()
    }

    ghost function Allocate(line: OrderLine): BatchState
    {
      if CanAllocate(line) then this.(allocations := allocations + {line}) else this
    }

    ghost function Deallocate(line: OrderLine): BatchState
    {
      if line in allocations then this.(allocations := allocations - {line}) else this
    }
  }

  /** Allocating the same line again changes nothing: the available quantity
      changes once, by the line's quantity, and only if the line fits and is
      new. */
  lemma AllocateIdempotent(s: BatchState, line: OrderLine)
    ensures s.Allocate(line).Allocate(line) == s.Allocate(line)
    ensures s.Allocate(line).Allocate(line).Available() ==
            s.Available() - (if s.CanAllocate(line) && line !in s.allocations then line.qty else 0)
  {
    var once := s.Allocate(line);
    if s.CanAllocate(line) && line !in s.allocations {
      SumQtyAdd(s.allocations, line);
    } else if s.CanAllocate(line) {
      assert s.allocations + {line} == s.allocations;
    }
    if once.CanAllocate(line) {
      assert line in once.allocations by {
        if line !in s.allocations {
          assert once != s;
        }
      }
      assert once.allocations + {line} == once.allocations;
    }
  }

  /** Deallocating a line that is not held is a no-op; one that is held
      frees its quantity. */
  lemma DeallocateFreesStock(s: BatchState, line: OrderLine)
    ensures line !in s.allocations ==> s.Deallocate(line) == s
    ensures s.Deallocate(line).Available() ==
            s.Available() + (if line in s.allocations then line.qty else 0)
  {
    if line in s.allocations {
      SumQtyRemove(s.allocations, line);
    }
  }

  /** Without the positivity test a line of negative quantity is accepted
      and raises the available quantity above the purchased quantity. */
  lemma NegativeLineInflatesStock()
    ensures var s := BatchState("batch-001", "SMALL-TABLE", None, 10, {});
            var line := OrderLine("order-1", "SMALL-TABLE", -5);
            s.CanAllocate(line) &&
            s.Allocate(line).Available() == 15 > s.purchased
  {
    var line := OrderLine("order-1", "SMALL-TABLE", -5);
    SumQtyAdd({}, line);
    assert {} + {line} == {line};
  }

  class Batch {
    const reference: string
    const sku: string
    const eta: Option<int>
    const purchased: int
    var allocations: set<OrderLine>

    ghost function State(): BatchState
      reads this
    {
      BatchState(reference, sku, eta, purchased, allocations)
    }

    constructor (reference: string, sku: string, qty: int, eta: Option<int>)
      ensures State() == BatchState(reference, sku, eta, qty, {})
    {
      this.reference := reference;
      this.sku := sku;
      this.eta := eta;
      this.purchased := qty;
      this.allocations := {};
    }

    method AllocatedQuantity() returns (q: int)
      ensures q == SumQty(allocations)
    {
      q := 0;
      var rest := allocations;
      while rest != {}
        invariant rest <= allocations
        invariant q + SumQty(rest) == SumQty(allocations)
        decreases rest
      {
        var l :| l in rest;
        SumQtyRemove(rest, l);
        q := q + l.qty;
        rest := rest - {l};
      }
    }

    method AvailableQuantity() returns (q: int)
      ensures q == purchased - SumQty(allocations)
    {
      var held := AllocatedQuantity();
      q := purchased - held;
    }

    method CanAllocate(line: OrderLine) returns (ok: bool)
      ensures ok <==> sku == line.sku && line.qty <= purchased - SumQty(allocations)
    {
      var available := AvailableQuantity();
      ok := sku == line.sku && line.qty <= available;
    }

    method Allocate(line: OrderLine)
      modifies this
      ensures State() == old(State()).Allocate(line)
    {
      var ok := CanAllocate(line);
      if ok {
        allocations := allocations + {line};
      }
    }

    method Deallocate(line: OrderLine)
      modifies this
      ensures State() == old(State()).Deallocate(line)
    {
      if line in allocations {
        allocations := allocations - {line};
      }
    }
  }

  function EtaOf(b: Batch): Option<int>
  {
    b.eta
  }

  ghost function Fitting(bs: seq<Batch>, line: OrderLine): set<Batch>
    reads bs
  {
    set b | b in bs && b.State().CanAllocate(line)
  }

  /** Index of the batch `allocate` picks (see Ordering.Earliest). */
  ghost function Preferred(bs: seq<Batch>, line: OrderLine): nat
    reads bs
  {
    Ordering.Earliest(bs, EtaOf, Fitting(bs, line))
  }

  /** The index of the first batch of `bs` that can take the line, `|bs|`
      when none can. */
  method FirstFitting(bs: seq<Batch>, line: OrderLine) returns (i: nat)
    ensures i == Ordering.FirstIn(bs, Fitting(bs, line))
  {
    i := 0;
    while i < |bs|
      invariant i <= |bs|
      invariant forall j :: 0 <= j < i ==> bs[j] !in Fitting(bs, line)
    {
      var ok := bs[i].CanAllocate(line);
      if ok {
        return;
      }
      i := i + 1;
    }
  }

  /** Scanning the sorted list for the first batch that fits lands on the
      preferred batch, and finds none exactly when no batch fits. */
  lemma SortedScanIsPreferred(bs: seq<Batch>, line: OrderLine)
    ensures var sorted := Ordering.Sort(bs, EtaOf);
      var i := Ordering.FirstIn(sorted, Fitting(sorted, line));
      var k := Preferred(bs, line);
      |sorted| == |bs| && k <= |bs| && (i == |bs| <==> k == |bs|) && (k < |bs| ==> sorted[i] == bs[k])
  {
    var sorted := Ordering.Sort(bs, EtaOf);
    Ordering.SortPermutes(bs, EtaOf);
    forall b ensures b in sorted <==> b in bs {
      assert b in sorted <==> b in multiset(sorted);
    }
    assert Fitting(sorted, line) == Fitting(bs, line);
    Ordering.FirstInSortIsEarliest(bs, EtaOf, Fitting(bs, line));
  }

  /** `next(b for b in sorted(bs) if b.can_allocate(line))`: the batch the
      scan of the sorted list stops at, None for StopIteration. It is the
      preferred batch, and it exists exactly when some batch fits. */
  method SelectBatch(bs: seq<Batch>, line: OrderLine) returns (chosen: Option<Batch>)
    ensures var k := Preferred(bs, line);
      k <= |bs| && (chosen.None? <==> k == |bs|) && (k < |bs| ==> chosen == Some(bs[k]))
    ensures chosen.Some? ==> chosen.value.State().CanAllocate(line)
  {
    var sorted := Ordering.Sort(bs, EtaOf);
    var i := FirstFitting(sorted, line);
    SortedScanIsPreferred(bs, line);
    if i == |sorted| {
      return None;
    }
    return Some(sorted[i]);
  }

  /** Allocates the line to the first batch of `sorted(batches)` that can take
      it and returns its reference; raises OutOfStock, changing no batch, when
      none can. */
  method Allocate(line: OrderLine, batches: seq<Batch>) returns (r: Result<string, OutOfStock>)
    modifies batches
    ensures var k := old(Preferred(batches, line));
      k <= |batches| &&
      (k == |batches| ==>
        r == Failure(OutOfStock("Out of stock for sku " + line.sku)) &&
        forall b <- batches :: b.State() == old(b.State())) &&
      (k < |batches| ==>
        r == Success(batches[k].reference) &&
        old(batches[k].State().CanAllocate(line)) &&
        batches[k].State() == old(batches[k].State()).Allocate(line) &&
        forall b <- batches :: b != batches[k] ==> b.State() == old(b.State()))
  {
    var chosen := SelectBatch(batches, line);
    if chosen.None? {
      return Failure(OutOfStock("Out of stock for sku " + line.sku));
    }
    var batch := chosen.value;
    batch.Allocate(line);
    return Success(batch.reference);
  }

  /** Removes the line from every batch that holds it. */
  method Deallocate(line: OrderLine, batches: seq<Batch>)
    modifies batches
    ensures forall b <- batches :: b.State() == old(b.State()).Deallocate(line)
  {
    for i := 0 to |batches|
      invariant forall b <- batches[..i] :: b.State() == old(b.State()).Deallocate(line)
      invariant forall b <- batches :: b !in batches[..i] ==> b.State() == old(b.State())
    {
      batches[i].Deallocate(line);
      assert batches[..i + 1] == batches[..i] + [batches[i]];
    }
    assert batches[..|batches|] == batches;
  }
}
