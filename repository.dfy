/** Product storage for the unit of work (src/allocation/adapters/repository.py):
    an in-memory store keyed by sku, the shape of the unit-test doubles, and
    the TrackingRepository decorator that remembers every product it hands
    out or is given. */
module Repository {
  import opened Basics
  import opened Model

  /** Some batch of `p` has this reference. */
  predicate HasBatch(p: Product, reference: string)
    reads p
  {
    exists i :: 0 <= i < |p.batches| && p.batches[i].reference == reference
  }

  class InMemoryRepository {
    var products: map<string, Product>

    ghost predicate Valid()
      reads this
    {
      forall sku :: sku in products ==> products[sku].sku == sku
    }

    constructor ()
      ensures Valid() && products == map[]
    {
      products := map[];
    }

    method Add(product: Product)
      requires Valid()
      modifies this
      ensures Valid() && products == old(products)[product.sku := product]
    {
      products := products[product.sku := product];
    }

    method Get(sku: string) returns (r: Option<Product>)
      ensures sku in products ==> r == Some(products[sku])
      ensures sku !in products ==> r == None
    {
      if sku in products {
        return Some(products[sku]);
      }
      return None;
    }

    /** Some stored product holding a batch with this reference, None when
        no stored product holds one. */
    method GetByBatchReference(reference: string) returns (r: Option<Product>)
      ensures r.Some? ==> r.value in products.Values && HasBatch(r.value, reference)
      ensures r.None? ==> forall p :: p in products.Values ==> !HasBatch(p, reference)
    {
      if p :| p in products.Values && HasBatch(p, reference) {
        return Some(p);
      }
      return None;
    }

    /** Every stored product once, in no particular order. */
    method List() returns (ps: seq<Product>)
      ensures Distinct(ps) && Elems(ps) == products.Values
    {
      ps := [];
      var rest := products.Values;
      while rest != {}
        invariant rest <= products.Values
        invariant Distinct(ps) && Elems(ps) == products.Values - rest
        decreases rest
      {
        var p :| p in rest;
        assert Elems(ps + [p]) == Elems(ps) + {p};
        ps := ps + [p];
        rest := rest - {p};
      }
    }
  }

  class TrackingRepository {
    const repo: InMemoryRepository
    var seen: set<Product>

    constructor (repo: InMemoryRepository)
      ensures this.repo == repo && seen == {}
    {
      this.repo := repo;
      this.seen := {};
    }

    method Add(product: Product)
      requires repo.Valid()
      modifies this, repo
      ensures repo.Valid() && repo.products == old(repo.products)[product.sku := product]
      ensures seen == old(seen) + {product}
    {
      repo.Add(product);
      seen := seen + {product};
    }

    /** The wrapped store's answer, tracked only when a product was found. */
    method Get(sku: string) returns (r: Option<Product>)
      modifies this
      ensures sku in repo.products ==> r == Some(repo.products[sku])
      ensures sku !in repo.products ==> r == None
      ensures seen == if r.Some? then old(seen) + {r.value} else old(seen)
    {
      r := repo.Get(sku);
      if r.Some? {
        seen := seen + {r.value};
      }
    }

    method GetByBatchReference(reference: string) returns (r: Option<Product>)
      modifies this
      ensures r.Some? ==> r.value in repo.products.Values && HasBatch(r.value, reference)
      ensures r.None? ==> forall p :: p in repo.products.Values ==> !HasBatch(p, reference)
      ensures seen == if r.Some? then old(seen) + {r.value} else old(seen)
    {
      r := repo.GetByBatchReference(reference);
      if r.Some? {
        seen := seen + {r.value};
      }
    }

    /** Delegates to the wrapped store; `seen` is left as it is. */
    method List() returns (ps: seq<Product>)
      ensures Distinct(ps) && Elems(ps) == repo.products.Values
    {
      ps := repo.List();
    }
  }
}
