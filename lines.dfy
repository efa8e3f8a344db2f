/** Order lines and the sum of their quantities, shared by both versions of
    the domain model. */
module Lines {

  /** A frozen record: two lines with equal fields are the same line. */
  datatype OrderLine = OrderLine(orderid: string, sku: string, qty: int)

  /** `sum(line.qty for line in lines)`. */
  ghost function SumQty(lines: set<OrderLine>): int
    decreases lines
  {
    if lines == {} then 0
    else
      var l :| l in lines;
      l.qty + SumQty(lines - {l})
  }

  /** Summing may start from any line, whichever one `:|` picked. */
  lemma {:induction false} SumQtyRemove(lines: set<OrderLine>, x: OrderLine)
    requires x in lines
    ensures SumQty(lines) == x.qty + SumQty(lines - {x})
    decreases lines
  {
    var l :| l in lines && SumQty(lines) == l.qty + SumQty(lines - {l});
    if l != x {
      SumQtyRemove(lines - {l}, x);
      SumQtyRemove(lines - {x}, l);
      assert lines - {l} - {x} == lines - {x} - {l};
    }
  }

  lemma SumQtyAdd(lines: set<OrderLine>, x: OrderLine)
    requires x !in lines
    ensures SumQty(lines + {x}) == SumQty(lines) + x.qty
  {
    SumQtyRemove(lines + {x}, x);
    assert lines + {x} - {x} == lines;
  }

  /** Lines of positive quantity sum to at least zero, and dropping lines
      never increases the sum. */
  lemma {:induction false} SumQtyMonotone(small: set<OrderLine>, big: set<OrderLine>)
    requires small <= big
    requires forall l :: l in big ==> l.qty > 0
    ensures 0 <= SumQty(small) <= SumQty(big)
    decreases big
  {
    if big == {} {
    } else {
      var x :| x in big;
      SumQtyRemove(big, x);
      if x in small {
        SumQtyRemove(small, x);
        SumQtyMonotone(small - {x}, big - {x});
      } else {
        SumQtyMonotone(small, big - {x});
      }
    }
  }
}
