/** The messages of the allocation service: commands (requests) and events
    (facts), as plain records. Dates are day numbers. */
module Messages {
  import opened Basics

  datatype Event =
    | OutOfStock(sku: string)
    | BatchCreated(reference: string, sku: string, qty: int, eta: Option<int>)
    | BatchQuantityChanged(reference: string, qty: int)
    | AllocationRequired(orderid: string, sku: string, qty: int)
    | DeallocationRequired(orderid: string, sku: string, qty: int)
      // raised by Product.allocate
    | Allocated(orderid: string, sku: string, qty: int, batchref: string)
      // raised by Product.change_batch_quantity, once per removed line
    | Deallocated(orderid: string, sku: string, qty: int)

  datatype Command =
    | CreateBatch(reference: string, sku: string, qty: int, eta: Option<int>)
    | ChangeBatchQuantity(reference: string, qty: int)
    | Allocate(orderid: string, sku: string, qty: int)
    | Deallocate(orderid: string, sku: string, qty: int)
}
