/** Validation of one parsed (product id, quantity) candidate against the
    catalog, in the console's short-circuit order. */
module Selection {
  import opened Catalog

  /** What the selection prompt does with a candidate. `Finish` ends the
      selection loop; the three rejections re-prompt with a diagnostic
      (`OutOfStock` reports the units left); `Accept` hands the pair on. */
  datatype Verdict =
    | Finish
    | UnknownProduct
    | NonPositiveQuantity
    | OutOfStock(remaining: int)
    | Accept(id: int, qty: int)

  /** Sentinel 0 first, then existence, then a positive quantity, then stock.
      Each outcome is characterised by exactly the conditions under which the
      console reaches it; the quantity is only consulted for a known product. */
  function Validate(c: Catalog, id: int, qty: int): (v: Verdict)
    ensures v.Finish? <==> id == 0
    ensures v.UnknownProduct? <==> id != 0 && id !in c
    ensures v.NonPositiveQuantity? <==> id != 0 && id in c && qty <= 0
    ensures v.OutOfStock? <==> id != 0 && id in c && 0 < qty && c[id].stock < qty
    ensures v.OutOfStock? ==> v.remaining == c[id].stock
    ensures v.Accept? <==> id != 0 && id in c && 0 < qty <= c[id].stock
    ensures v.Accept? ==> v.id == id && v.qty == qty
  {
    if id == 0 then Finish
    else if id !in c then UnknownProduct
    else if qty <= 0 then NonPositiveQuantity
    else if qty > c[id].stock then OutOfStock(c[id].stock)
    else Accept(id, qty)
  }

  /** An accepted pair can be taken out of stock without the stock going negative,
      and the decrement touches no other product. */
  lemma AcceptedKeepsStock(c: Catalog, id: int, qty: int)
    requires WellFormed(c)
    requires Validate(c, id, qty).Accept?
    ensures id in c
    ensures WellFormed(Decrement(c, id, qty))
    ensures Decrement(c, id, qty)[id].stock < c[id].stock
  {
  }
}
