/** The allocation aggregate (src/allocation/domain/model.py): batches of
    stock that order lines are allocated to, and the product that chooses the
    batch and records what happened as events. */
module Model {
  import opened Basics
  import opened Lines
  import Ordering
  import Messages

  /** What a batch holds at one moment: its identity, eta (a day number) and
      purchased quantity, and the set of lines allocated to it. */
  datatype BatchState = BatchState(
    reference: string, sku: string, eta: Option<int>,
    purchased: int, allocations: set<OrderLine>)
  {
    ghost function Allocated(): int
    {
      SumQty(allocations)
    }

    ghost function Available(): int
    {
      purchased - Allocated()
    }

    ghost predicate CanAllocate(line: OrderLine)
    {
      sku == line.sku && 0 < line.qty <= Available()
    }

    ghost function Allocate(line: OrderLine): BatchState
    {
      if CanAllocate(line) then this.(allocations := allocations + {line}) else this
    }

    ghost function Deallocate(line: OrderLine): BatchState
    {
      if line in allocations then this.(allocations := allocations - {line}) else this
    }

    /** Every allocated line has a positive quantity and together they fit in
        the purchased quantity. */
    ghost predicate Consistent()
    {
      (forall l :: l in allocations ==> l.qty > 0) && Allocated() <= purchased
    }
  }

  /** A consistent batch has 0 <= allocated <= purchased. */
  lemma ConsistentBounds(s: BatchState)
    requires s.Consistent()
    ensures 0 <= s.Allocated() <= s.purchased
  {
    SumQtyMonotone({}, s.allocations);
  }

  /** A new batch of non-negative quantity is consistent. */
  lemma NewBatchConsistent(reference: string, sku: string, eta: Option<int>, qty: int)
    requires qty >= 0
    ensures BatchState(reference, sku, eta, qty, {}).Consistent()
    ensures BatchState(reference, sku, eta, qty, {}).Available() == qty
  {
  }

  /** Allocating takes exactly the line's quantity from the available stock
      when the line fits and is new, and nothing otherwise. */
  lemma AllocateTakesStock(s: BatchState, line: OrderLine)
    ensures s.Allocate(line).Available() ==
            s.Available() - (if s.CanAllocate(line) && line !in s.allocations then line.qty else 0)
    ensures s.Allocate(line).Available() <= s.Available()
  {
    if s.CanAllocate(line) && line !in s.allocations {
      SumQtyAdd(s.allocations, line);
    } else if s.CanAllocate(line) {
      assert s.allocations + {line} == s.allocations;
    }
  }

  /** Allocating the same line again changes nothing: the available quantity
      goes down once. */
  lemma AllocateIdempotent(s: BatchState, line: OrderLine)
    ensures s.Allocate(line).Allocate(line) == s.Allocate(line)
    ensures s.Allocate(line).Allocate(line).Available() ==
            s.Available() - (if s.CanAllocate(line) && line !in s.allocations then line.qty else 0)
  {
    var once := s.Allocate(line);
    if once.CanAllocate(line) {
      assert line in once.allocations by {
        if line !in s.allocations {
          assert once != s;
        }
      }
      assert once.allocations + {line} == once.allocations;
    }
    AllocateTakesStock(s, line);
  }

  /** Allocation keeps a batch consistent (allocated <= purchased). */
  lemma AllocateKeepsConsistent(s: BatchState, line: OrderLine)
    requires s.Consistent()
    ensures s.Allocate(line).Consistent()
  {
    AllocateTakesStock(s, line);
  }

  /** Deallocating frees exactly the line's quantity when the line is held,
      and is a no-op otherwise. */
  lemma DeallocateFreesStock(s: BatchState, line: OrderLine)
    ensures line !in s.allocations ==> s.Deallocate(line) == s
    ensures s.Deallocate(line).Available() ==
            s.Available() + (if line in s.allocations then line.qty else 0)
  {
    if line in s.allocations {
      SumQtyRemove(s.allocations, line);
    }
  }

  /** Deallocation keeps a batch consistent. */
  lemma DeallocateKeepsConsistent(s: BatchState, line: OrderLine)
    requires s.Consistent()
    ensures s.Deallocate(line).Consistent()
  {
    if line in s.allocations {
      SumQtyRemove(s.allocations, line);
    }
  }

  /** Allocate then deallocate of a new line restores the batch, and with it
      the available quantity. */
  lemma AllocateDeallocateRoundTrip(s: BatchState, line: OrderLine)
    requires line !in s.allocations
    ensures s.Allocate(line).Deallocate(line) == s
    ensures s.Allocate(line).Deallocate(line).Available() == s.Available()
  {
    if s.CanAllocate(line) {
      assert s.allocations + {line} - {line} == s.allocations;
    }
  }

  class Batch {
    const reference: string
    const sku: string
    const eta: Option<int>
    var purchased: int
    var allocations: set<OrderLine>

    ghost function State(): BatchState
      reads this
    {
      BatchState(reference, sku, eta, purchased, allocations)
    }

    constructor (reference: string, sku: string, qty: int, eta: Option<int>)
      ensures State() == BatchState(reference, sku, eta, qty, {})
    {
      this.reference := reference;
      this.sku := sku;
      this.eta := eta;
      this.purchased := qty;
      this.allocations := {};
    }

    /** `allocated_quaitity`: the sum of the allocated lines' quantities. */
    method AllocatedQuantity() returns (q: int)
      ensures q == SumQty(allocations)
    {
      q := 0;
      var rest := allocations;
      while rest != {}
        invariant rest <= allocations
        invariant q + SumQty(rest) == SumQty(allocations)
        decreases rest
      {
        var l :| l in rest;
        SumQtyRemove(rest, l);
        q := q + l.qty;
        rest := rest - {l};
      }
    }

    method AvailableQuantity() returns (q: int)
      ensures q == purchased - SumQty(allocations)
    {
      var held := AllocatedQuantity();
      q := purchased - held;
    }

    method CanAllocate(line: OrderLine) returns (ok: bool)
      ensures ok <==> sku == line.sku && 0 < line.qty <= purchased - SumQty(allocations)
    {
      if sku != line.sku || line.qty <= 0 {
        return false;
      }
      var available := AvailableQuantity();
      ok := line.qty <= available;
    }

    method Allocate(line: OrderLine)
      modifies this
      ensures State() == old(State()).Allocate(line)
    {
      var ok := CanAllocate(line);
      if ok {
        allocations := allocations + {line};
      }
    }

    method Deallocate(line: OrderLine)
      modifies this
      ensures State() == old(State()).Deallocate(line)
    {
      if line in allocations {
        allocations := allocations - {line};
      }
    }

    /** `_allocations.pop()`: removes and returns an arbitrary allocated
        line, or returns None when there is none. */
    method DeallocateOne() returns (line: Option<OrderLine>)
      modifies this
      ensures purchased == old(purchased)
      ensures old(allocations) == {} ==> line == None && allocations == {}
      ensures old(allocations) != {} ==>
                line.Some? && line.value in old(allocations) &&
                allocations == old(allocations) - {line.value}
    {
      if allocations != {} {
        var l :| l in allocations;
        allocations := allocations - {l};
        return Some(l);
      }
      return None;
    }
  }

  function EtaOf(b: Batch): Option<int>
  {
    b.eta
  }

  /** The batches of `bs` that can take `line` now. */
  ghost function Fitting(bs: seq<Batch>, line: OrderLine): set<Batch>
    reads bs
  {
    set b | b in bs && b.State().CanAllocate(line)
  }

  /** Index of the batch Product.allocate picks: the fitting batch with the
      earliest eta, the first in list order among equal etas; `|bs|` when
      none fits. */
  ghost function Preferred(bs: seq<Batch>, line: OrderLine): nat
    reads bs
  {
    Ordering.Earliest(bs, EtaOf, Fitting(bs, line))
  }

  /** The index of the first batch of `bs` that can take the line, `|bs|`
      when none can. */
  method FirstFitting(bs: seq<Batch>, line: OrderLine) returns (i: nat)
    ensures i == Ordering.FirstIn(bs, Fitting(bs, line))
  {
    i := 0;
    while i < |bs|
      invariant i <= |bs|
      invariant forall j :: 0 <= j < i ==> bs[j] !in Fitting(bs, line)
    {
      var ok := bs[i].CanAllocate(line);
      if ok {
        return;
      }
      i := i + 1;
    }
  }

  /** Scanning the sorted list for the first batch that fits lands on the
      preferred batch, and finds none exactly when no batch fits. */
  lemma SortedScanIsPreferred(bs: seq<Batch>, line: OrderLine)
    ensures var sorted := Ordering.Sort(bs, EtaOf);
      var i := Ordering.FirstIn(sorted, Fitting(sorted, line));
      var k := Preferred(bs, line);
      |sorted| == |bs| && k <= |bs| && (i == |bs| <==> k == |bs|) && (k < |bs| ==> sorted[i] == bs[k])
  {
    var sorted := Ordering.Sort(bs, EtaOf);
    Ordering.SortPermutes(bs, EtaOf);
    forall b ensures b in sorted <==> b in bs {
      assert b in sorted <==> b in multiset(sorted);
    }
    assert Fitting(sorted, line) == Fitting(bs, line);
    Ordering.FirstInSortIsEarliest(bs, EtaOf, Fitting(bs, line));
  }

  /** `next(b for b in sorted(bs) if b.can_allocate(line))`: the batch the
      scan of the sorted list stops at, None for StopIteration. It is the
      preferred batch, and it exists exactly when some batch fits. */
  method SelectBatch(bs: seq<Batch>, line: OrderLine) returns (chosen: Option<Batch>)
    ensures var k := Preferred(bs, line);
      k <= |bs| && (chosen.None? <==> k == |bs|) && (k < |bs| ==> chosen == Some(bs[k]))
    ensures chosen.Some? ==> chosen.value.State().CanAllocate(line)
  {
    var sorted := Ordering.Sort(bs, EtaOf);
    var i := FirstFitting(sorted, line);
    SortedScanIsPreferred(bs, line);
    if i == |sorted| {
      return None;
    }
    return Some(sorted[i]);
  }

  /** Index of the first batch with this reference, `|bs|` if none. */
  function FindReference(bs: seq<Batch>, reference: string): (k: nat)
    ensures k <= |bs|
    ensures k < |bs| ==> bs[k].reference == reference
    ensures forall j :: 0 <= j < k ==> bs[j].reference != reference
  {
    if bs == [] then 0
    else if bs[0].reference == reference then 0
    else 1 + FindReference(bs[1..], reference)
  }

  /** One Deallocated event per removed line, in removal order. */
  function DeallocatedEvents(removed: seq<OrderLine>): (es: seq<Messages.Event>)
    ensures |es| == |removed|
  {
    if removed == [] then []
    else DeallocatedEvents(removed[..|removed| - 1]) +
         [Messages.Deallocated(removed[|removed| - 1].orderid, removed[|removed| - 1].sku, removed[|removed| - 1].qty)]
  }

  /** Each line of `removed` was taken while the lines still held, starting
      from `start`, added up to more than `qty`. */
  ghost predicate RemovedWhileOver(start: set<OrderLine>, removed: seq<OrderLine>, qty: int)
  {
    forall j :: 0 <= j < |removed| ==> SumQty(start - Elems(removed[..j])) > qty
  }

  /** `now` is what is left of `start` after removing the distinct lines of
      `removed`, each taken while the lines held exceeded `qty`. */
  ghost predicate RemovedFrom(start: set<OrderLine>, removed: seq<OrderLine>, now: set<OrderLine>, qty: int)
  {
    Distinct(removed) && Elems(removed) <= start && now == start - Elems(removed) &&
    RemovedWhileOver(start, removed, qty)
  }

  lemma RemoveOneMore(start: set<OrderLine>, removed: seq<OrderLine>, now: set<OrderLine>, l: OrderLine, qty: int)
    requires RemovedFrom(start, removed, now, qty)
    requires l in now && SumQty(now) > qty
    ensures RemovedFrom(start, removed + [l], now - {l}, qty)
  {
    var longer := removed + [l];
    assert Elems(longer) == Elems(removed) + {l};
    forall j | 0 <= j < |longer|
      ensures SumQty(start - Elems(longer[..j])) > qty
    {
      if j < |removed| {
        assert longer[..j] == removed[..j];
      } else {
        assert longer[..j] == removed;
      }
    }
    DistinctSnoc(removed, l);
  }

  /** The i-th event names the i-th removed line. */
  lemma {:induction false} DeallocatedEventsAt(removed: seq<OrderLine>, i: nat)
    requires i < |removed|
    ensures DeallocatedEvents(removed)[i] ==
            Messages.Deallocated(removed[i].orderid, removed[i].sku, removed[i].qty)
  {
    if i < |removed| - 1 {
      DeallocatedEventsAt(removed[..|removed| - 1], i);
    }
  }

  /** Removing one more line appends its Deallocated event to the log. */
  lemma DeallocatedEventsSnoc(logged: seq<Messages.Event>, removed: seq<OrderLine>, l: OrderLine)
    ensures logged + DeallocatedEvents(removed + [l]) ==
            logged + DeallocatedEvents(removed) + [Messages.Deallocated(l.orderid, l.sku, l.qty)]
  {
    assert (removed + [l])[..|removed|] == removed;
  }

  class Product {
    const sku: string
    var batches: seq<Batch>
    var events: seq<Messages.Event>

    constructor (sku: string, batches: seq<Batch>)
      ensures this.sku == sku && this.batches == batches && events == []
    {
      this.sku := sku;
      this.batches := batches;
      this.events := [];
    }

    /** Allocates the line to the preferred batch and records Allocated, or
        records OutOfStock and changes no batch when none can take it. */
    method Allocate(line: OrderLine) returns (r: Option<string>)
      modifies this, batches
      ensures batches == old(batches)
      ensures var k := old(Preferred(batches, line));
        k <= |batches| &&
        (k == |batches| ==>
          r == None &&
          events == old(events) + [Messages.OutOfStock(line.sku)] &&
          forall b <- batches :: b.State() == old(b.State())) &&
        (k < |batches| ==>
          r == Some(batches[k].reference) &&
          old(batches[k].State().CanAllocate(line)) &&
          batches[k].State() == old(batches[k].State()).Allocate(line) &&
          events == old(events) + [Messages.Allocated(line.orderid, line.sku, line.qty, batches[k].reference)] &&
          forall b <- batches :: b != batches[k] ==> b.State() == old(b.State()))
    {
      var chosen := SelectBatch(batches, line);
      if chosen.None? {
        events := events + [Messages.OutOfStock(line.sku)];
        return None;
      }
      var batch := chosen.value;
      batch.Allocate(line);
      events := events + [Messages.Allocated(line.orderid, line.sku, line.qty, batch.reference)];
      return Some(batch.reference);
    }

    /** Removes the line from every batch that holds it. */
    method Deallocate(line: OrderLine)
      modifies batches
      ensures forall b <- batches :: b.State() == old(b.State()).Deallocate(line)
    {
      for i := 0 to |batches|
        invariant forall b <- batches[..i] :: b.State() == old(b.State()).Deallocate(line)
        invariant forall b <- batches :: b !in batches[..i] ==> b.State() == old(b.State())
      {
        batches[i].Deallocate(line);
        assert batches[..i + 1] == batches[..i] + [batches[i]];
      }
      assert batches[..|batches|] == batches;
    }

    /** Sets the purchased quantity of the batch with this reference, then
        removes arbitrary allocated lines while the allocated quantity
        exceeds it, recording one Deallocated event per removed line. */
    method ChangeBatchQuantity(reference: string, qty: int) returns (ghost removed: seq<OrderLine>)
      requires exists i :: 0 <= i < |batches| && batches[i].reference == reference
      requires qty >= 0
      modifies this, batches
      ensures batches == old(batches)
      ensures var b := batches[FindReference(batches, reference)];
        b.purchased == qty &&
        Distinct(removed) && Elems(removed) <= old(b.allocations) &&
        b.allocations == old(b.allocations) - Elems(removed) &&
        SumQty(b.allocations) <= qty &&
        RemovedWhileOver(old(b.allocations), removed, qty) &&
        events == old(events) + DeallocatedEvents(removed) &&
        (forall c <- batches :: c != b ==> c.State() == old(c.State()))
    {
      var batch := batches[FindReference(batches, reference)];
      batch.purchased := qty;
      removed := DeallocateWhileOver(batch);
    }

    /** The loop of change_batch_quantity: removes arbitrary lines of
        `batch` while its allocated quantity exceeds its (just set)
        purchased quantity, recording one Deallocated event per removed
        line. */
    method DeallocateWhileOver(batch: Batch) returns (ghost removed: seq<OrderLine>)
      requires batch.purchased >= 0
      modifies this, batch
      ensures batches == old(batches) && batch.purchased == old(batch.purchased)
      ensures Distinct(removed) && Elems(removed) <= old(batch.allocations)
      ensures batch.allocations == old(batch.allocations) - Elems(removed)
      ensures SumQty(batch.allocations) <= batch.purchased
      ensures RemovedWhileOver(old(batch.allocations), removed, batch.purchased)
      ensures events == old(events) + DeallocatedEvents(removed)
    {
      removed := [];
      ghost var start := batch.allocations;
      var held := batch.AllocatedQuantity();
      while held > batch.purchased
        invariant batches == old(batches) && batch.purchased == old(batch.purchased)
        invariant held == SumQty(batch.allocations)
        invariant RemovedFrom(start, removed, batch.allocations, batch.purchased)
        invariant events == old(events) + DeallocatedEvents(removed)
        decreases |batch.allocations|
      {
        ghost var now := batch.allocations;
        var line := batch.DeallocateOne();
        var l := line.value;
        RemoveOneMore(start, removed, now, l, batch.purchased);
        DeallocatedEventsSnoc(old(events), removed, l);
        events := events + [Messages.Deallocated(l.orderid, l.sku, l.qty)];
        removed := removed + [l];
        held := batch.AllocatedQuantity();
      }
    }
  }
}
