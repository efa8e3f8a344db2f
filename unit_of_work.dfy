/** The abstract unit of work (src/allocation/service_layer/unit_of_work.py).
    Its hooks `_commit` and `_rollback`, and the message bus that
    publish_events hands each event to, are abstract: the model records
    every call to them, in order, in `trace`. */
module UnitOfWork {
  import opened Basics
  import opened Model
  import opened Repository
  import Messages

  datatype Step =
    | Committed                          // `_commit()` ran
    | RolledBack                         // `_rollback()` ran
    | Published(event: Messages.Event)   // the event was handed to the bus

  function Publications(events: seq<Messages.Event>): (steps: seq<Step>)
    ensures |steps| == |events|
  {
    if events == [] then [] else [Published(events[0])] + Publications(events[1..])
  }

  lemma {:induction false} PublicationsAppend(a: seq<Messages.Event>, b: seq<Messages.Event>)
    ensures Publications(a + b) == Publications(a) + Publications(b)
  {
    if a != [] {
      PublicationsAppend(a[1..], b);
      assert (a + b)[0] == a[0];
      assert (a + b)[1..] == a[1..] + b;
      calc {
        Publications(a + b);
        [Published(a[0])] + Publications(a[1..] + b);
        [Published(a[0])] + (Publications(a[1..]) + Publications(b));
        ([Published(a[0])] + Publications(a[1..])) + Publications(b);
      }
    } else {
      assert a + b == b;
    }
  }

  /** The pending events of the products in `order`, product after product,
      each product's events oldest first. */
  ghost function Pending(order: seq<Product>, pending: map<Product, seq<Messages.Event>>): seq<Messages.Event>
    requires forall p :: p in order ==> p in pending
  {
    if order == [] then [] else pending[order[0]] + Pending(order[1..], pending)
  }

  lemma {:induction false} PendingSnoc(order: seq<Product>, p: Product, pending: map<Product, seq<Messages.Event>>)
    requires forall q :: q in order ==> q in pending
    requires p in pending
    ensures Pending(order + [p], pending) == Pending(order, pending) + pending[p]
  {
    if order != [] {
      PendingSnoc(order[1..], p, pending);
      assert (order + [p])[1..] == order[1..] + [p];
    }
  }

  /** Publishing the events of one more product extends the trace by them. */
  lemma PublishedSnoc(logged: seq<Step>, order: seq<Product>, p: Product, pending: map<Product, seq<Messages.Event>>)
    requires forall q :: q in order ==> q in pending
    requires p in pending
    ensures logged + Publications(Pending(order + [p], pending)) ==
            logged + Publications(Pending(order, pending)) + Publications(pending[p])
  {
    PendingSnoc(order, p, pending);
    PublicationsAppend(Pending(order, pending), pending[p]);
  }

  /** Every event pending on a product of `order` is among the delivered. */
  lemma {:induction false} PendingContains(order: seq<Product>, p: Product, pending: map<Product, seq<Messages.Event>>, e: Messages.Event)
    requires forall q :: q in order ==> q in pending
    requires p in order && e in pending[p]
    ensures e in Pending(order, pending)
  {
    if order[0] != p {
      PendingContains(order[1..], p, pending, e);
    }
  }

  class UnitOfWork {
    const products: TrackingRepository
    var trace: seq<Step>

    ghost predicate Valid()
      reads products.repo
    {
      products.repo.Valid()
    }

    /** The products in the wrapped store. */
    ghost function Stored(): set<Product>
      reads products.repo
    {
      products.repo.products.Values
    }

    /** The batches of the stored products. */
    ghost function StoredBatches(): set<Batch>
      reads products.repo, Stored()
    {
      set p, i | p in Stored() && 0 <= i < |p.batches| :: p.batches[i]
    }

    /** The events currently pending on each product seen so far. */
    ghost function PendingEvents(): (pending: map<Product, seq<Messages.Event>>)
      reads products, products.seen
      ensures pending.Keys == products.seen
    {
      map p | p in products.seen :: p.events
    }

    constructor (products: TrackingRepository)
      ensures this.products == products && trace == []
    {
      this.products := products;
      this.trace := [];
    }

    /** `__exit__`: leaving the scope always rolls back. */
    method Exit()
      modifies this
      ensures trace == old(trace) + [RolledBack]
    {
      Rollback();
    }

    method Rollback()
      modifies this
      ensures trace == old(trace) + [RolledBack]
    {
      trace := trace + [RolledBack];
    }

    /** `_commit` first, then publish_events; returns, as a ghost, the
        events delivered. */
    method Commit() returns (ghost delivered: seq<Messages.Event>, ghost order: seq<Product>)
      modifies this, products.seen
      ensures Distinct(order) && Elems(order) == products.seen
      ensures delivered == Pending(order, old(PendingEvents()))
      ensures trace == old(trace) + [Committed] + Publications(delivered)
      ensures forall p :: p in products.seen ==> p.events == [] && p.batches == old(p.batches)
    {
      trace := trace + [Committed];
      ghost var pending := PendingEvents();
      order := PublishEvents();
      delivered := Pending(order, pending);
    }

    /** Hands one event to the message bus. */
    method Publish(event: Messages.Event)
      modifies this
      ensures trace == old(trace) + [Published(event)]
    {
      trace := trace + [Published(event)];
    }

    /** Hands the events of one product to the bus, oldest first, removing
        each from the product as it goes. */
    method Drain(p: Product)
      modifies this, p
      ensures p.events == [] && p.batches == old(p.batches)
      ensures trace == old(trace) + Publications(old(p.events))
    {
      ghost var events0 := p.events;
      while p.events != []
        invariant |p.events| <= |events0|
        invariant p.events == events0[|events0| - |p.events|..]
        invariant p.batches == old(p.batches)
        invariant trace == old(trace) + Publications(events0[..|events0| - |p.events|])
        decreases |p.events|
      {
        var event := p.events[0];
        ghost var done := events0[..|events0| - |p.events|];
        assert events0[..|events0| - |p.events| + 1] == done + [event];
        PublicationsAppend(done, [event]);
        p.events := p.events[1..];
        Publish(event);
      }
      assert events0[..|events0|] == events0;
    }

    /** Drains each seen product's events, oldest first, into the bus; the
        products are visited in some order, returned as a ghost. Products
        outside `seen` are not touched. */
    method PublishEvents() returns (ghost order: seq<Product>)
      modifies this, products.seen
      ensures Distinct(order) && Elems(order) == products.seen
      ensures trace == old(trace) + Publications(Pending(order, old(PendingEvents())))
      ensures forall p :: p in products.seen ==> p.events == [] && p.batches == old(p.batches)
    {
      ghost var pending := PendingEvents();
      var remaining := products.seen;
      order := [];
      while remaining != {}
        invariant remaining <= products.seen && pending.Keys == products.seen
        invariant Distinct(order) && Elems(order) == products.seen - remaining
        invariant forall p :: p in order ==> p in pending && p.events == []
        invariant forall p :: p in remaining ==> p.events == pending[p]
        invariant forall p :: p in products.seen ==> p.batches == old(p.batches)
        invariant trace == old(trace) + Publications(Pending(order, pending))
        decreases remaining
      {
        var p :| p in remaining;
        Drain(p);
        PublishedSnoc(old(trace), order, p, pending);
        DistinctSnoc(order, p);
        assert products.seen - (remaining - {p}) == (products.seen - remaining) + {p};
        order := order + [p];
        remaining := remaining - {p};
      }
    }
  }
}
