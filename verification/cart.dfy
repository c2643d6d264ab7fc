/** The per-session cart: one line per product id, kept in the order the ids
    were first selected (a Python dict keeps insertion order). */
module Cart {
  import opened Wrappers
  import opened Sums

  /** One cart line: the product id it is keyed by, a copy of the product's
      name, the units bought so far and the amount they cost. */
  datatype Line = Line(id: int, name: string, quantity: int, subtotal: int)

  type Cart = seq<Line>

  /** Measures summed over a cart. */
  function Quantity(l: Line): int { l.quantity }
  function Subtotal(l: Line): int { l.subtotal }

  /** At most one line per product id. */
  ghost predicate Unique(cart: Cart)
  {
    forall i, j :: 0 <= i < j < |cart| ==> cart[i].id != cart[j].id
  }

  /** The position of the first line for `id`, if there is one. */
  function Find(cart: Cart, id: int): (r: Option<nat>)
    ensures r.Some? ==> r.value < |cart| && cart[r.value].id == id
    ensures r.Some? ==> forall k :: 0 <= k < r.value ==> cart[k].id != id
    ensures r.None? <==> forall k :: 0 <= k < |cart| ==> cart[k].id != id
    decreases |cart|
  {
    if |cart| == 0 then None
    else if cart[0].id == id then Some(0)
    else match Find(cart[1..], id)
      case Some(k) => Some(k + 1)
      case None => None
  }

  /** The line for `id` (`carrito[id]`), if the cart has one. */
  function LineOf(cart: Cart, id: int): (r: Option<Line>)
    ensures r.Some? <==> exists k :: 0 <= k < |cart| && cart[k].id == id
    ensures r.Some? ==> r.value.id == id && r.value in cart
  {
    match Find(cart, id)
    case Some(i) => Some(cart[i])
    case None => None
  }

  /** Units of `id` in the cart; 0 when it has no line. */
  function QuantityOf(cart: Cart, id: int): int
  {
    match LineOf(cart, id)
    case Some(l) => l.quantity
    case None => 0
  }

  /** Amount accumulated for `id` in the cart; 0 when it has no line. */
  function SubtotalOf(cart: Cart, id: int): int
  {
    match LineOf(cart, id)
    case Some(l) => l.subtotal
    case None => 0
  }

  /** In a cart without duplicates, the line at position `i` is the line of its id. */
  lemma LineOfUnique(cart: Cart, i: nat)
    requires Unique(cart)
    requires i < |cart|
    ensures LineOf(cart, cart[i].id) == Some(cart[i])
  {
    assert Find(cart, cart[i].id).Some?;
  }

  /** Two carts whose lines carry the same ids position by position have the
      same lookups. */
  lemma FindSameIds(cart: Cart, other: Cart, p: int)
    requires |other| == |cart|
    requires forall k :: 0 <= k < |cart| ==> other[k].id == cart[k].id
    ensures Find(other, p) == Find(cart, p)
  {
    var a, b := Find(other, p), Find(cart, p);
    if a.Some? {
      assert cart[a.value].id == p;
    }
  }

  /** Rewriting a line without changing its id leaves every lookup as it was. */
  lemma FindUpdate(cart: Cart, i: nat, x: Line)
    requires i < |cart|
    requires x.id == cart[i].id
    ensures forall p :: Find(cart[i := x], p) == Find(cart, p)
  {
    forall p
      ensures Find(cart[i := x], p) == Find(cart, p)
    {
      FindSameIds(cart, cart[i := x], p);
    }
  }

  /** Appending a line leaves the lookup of every other id as it was. */
  lemma FindAppendOther(cart: Cart, x: Line, p: int)
    requires p != x.id
    ensures Find(cart + [x], p) == Find(cart, p)
  {
    var c := cart + [x];
    var a, b := Find(c, p), Find(cart, p);
    assert forall k :: 0 <= k < |cart| ==> c[k] == cart[k];
    if a.Some? {
      assert a.value < |cart|;
    }
  }

  /** Appending a line for an id the cart lacks makes that line the one found. */
  lemma FindAppendNew(cart: Cart, x: Line)
    requires Find(cart, x.id).None?
    ensures Find(cart + [x], x.id) == Some(|cart|)
  {
    var c := cart + [x];
    var a := Find(c, x.id);
    assert c[|cart|].id == x.id;
  }

  /** Adds `qty` units costing `amount` to the line of `id`: when the line exists
      its quantity and subtotal grow by these amounts, otherwise a new line is
      appended at the end. Every line of another id stays where and as it was. */
  function Merge(cart: Cart, id: int, name: string, qty: int, amount: int): (r: Cart)
    ensures QuantityOf(r, id) == QuantityOf(cart, id) + qty
    ensures SubtotalOf(r, id) == SubtotalOf(cart, id) + amount
    ensures LineOf(r, id).Some?
    ensures LineOf(r, id).value.name ==
            (if LineOf(cart, id).Some? then LineOf(cart, id).value.name else name)
    ensures forall p :: p != id ==> LineOf(r, p) == LineOf(cart, p)
    ensures LineOf(cart, id).Some? ==> |r| == |cart|
    ensures LineOf(cart, id).None? ==> r == cart + [Line(id, name, qty, amount)]
    ensures forall i :: 0 <= i < |cart| ==> r[i].id == cart[i].id
    ensures forall i :: 0 <= i < |cart| && cart[i].id != id ==> r[i] == cart[i]
    ensures Unique(cart) ==> Unique(r)
    ensures Sum(r, Quantity) == Sum(cart, Quantity) + qty
    ensures Sum(r, Subtotal) == Sum(cart, Subtotal) + amount
  {
    match Find(cart, id)
    case Some(i) =>
      var merged := cart[i].(quantity := cart[i].quantity + qty, subtotal := cart[i].subtotal + amount);
      MergeIntoLine(cart, i, merged);
      cart[i := merged]
    case None =>
      var added := Line(id, name, qty, amount);
      MergeNewLine(cart, added);
      cart + [added]
  }

  /** The existing-line case of `Merge`: the line at `i` is rewritten in place. */
  lemma MergeIntoLine(cart: Cart, i: nat, merged: Line)
    requires i < |cart| && Find(cart, cart[i].id) == Some(i)
    requires merged.id == cart[i].id && merged.name == cart[i].name
    ensures LineOf(cart[i := merged], merged.id) == Some(merged)
    ensures forall p :: p != merged.id ==> LineOf(cart[i := merged], p) == LineOf(cart, p)
    ensures Unique(cart) ==> Unique(cart[i := merged])
    ensures Sum(cart[i := merged], Quantity) == Sum(cart, Quantity) - cart[i].quantity + merged.quantity
    ensures Sum(cart[i := merged], Subtotal) == Sum(cart, Subtotal) - cart[i].subtotal + merged.subtotal
  {
    FindUpdate(cart, i, merged);
    SumUpdate(cart, i, merged, Quantity);
    SumUpdate(cart, i, merged, Subtotal);
  }

  /** The new-line case of `Merge`: the line is appended at the end. */
  lemma MergeNewLine(cart: Cart, added: Line)
    requires Find(cart, added.id).None?
    ensures LineOf(cart + [added], added.id) == Some(added)
    ensures forall p :: p != added.id ==> LineOf(cart + [added], p) == LineOf(cart, p)
    ensures Unique(cart) ==> Unique(cart + [added])
    ensures Sum(cart + [added], Quantity) == Sum(cart, Quantity) + added.quantity
    ensures Sum(cart + [added], Subtotal) == Sum(cart, Subtotal) + added.subtotal
  {
    FindAppendNew(cart, added);
    forall p | p != added.id
      ensures LineOf(cart + [added], p) == LineOf(cart, p)
    {
      FindAppendOther(cart, added, p);
    }
    SumAppend(cart, added, Quantity);
    SumAppend(cart, added, Subtotal);
  }
}
