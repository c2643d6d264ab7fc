/** One customer's purchase as a pure state machine over already-parsed input
    events: selection, the purchase step, the continue prompt, the summary and
    the payment prompt. The catalog is threaded through the state, so stock
    taken in one session stays taken for the next. */
module Session {
  import opened Wrappers
  import opened Sums
  import opened Catalog
  import opened Cart
  import opened Selection
  import opened Prompts
  import opened Summary

  /** Which prompt the session is waiting at. `Paying` carries the summary
      already shown; `Done` carries the receipt, absent when the total was 0. */
  datatype Phase =
    | Selecting
    | Confirming
    | Paying(summary: Summary)
    | Done(receipt: Option<Receipt>)

  /** The catalog, the cart, the running total (`total_acumulado`) and the phase. */
  datatype State = State(catalog: Catalog, cart: Cart, total: int, phase: Phase)

  /** One operator input, already parsed. `Select` is a product id and a
      quantity read as integers; `Garbled` is selection input `int()` could not
      read, or any other error raised while reading it; `Answer` is one line of
      text typed at the continue or the payment prompt. */
  datatype Event = Select(id: int, qty: int) | Garbled | Answer(text: string)

  /** A pair the selection prompt accepted. */
  datatype Pick = Pick(id: int, qty: int)

  /** A new session: empty cart, total 0, waiting for a selection. */
  function Start(c: Catalog): (r: State)
    ensures r.catalog == c && r.phase == Selecting
    ensures forall p :: LineOf(r.cart, p).None? && QuantityOf(r.cart, p) == 0
    ensures r.total == Sum(r.cart, Subtotal) == 0
  {
    State(c, [], 0, Selecting)
  }

  /** The purchase step for an accepted pair: the subtotal is price times
      quantity, it is added to the running total and merged into the cart line
      of the product (a new line carries the product's name), and the product's
      stock drops by the quantity. */
  function Purchase(s: State, id: int, qty: int): (r: State)
    requires id in s.catalog
    ensures r.total == s.total + s.catalog[id].price * qty
    ensures QuantityOf(r.cart, id) == QuantityOf(s.cart, id) + qty
    ensures SubtotalOf(r.cart, id) == SubtotalOf(s.cart, id) + s.catalog[id].price * qty
    ensures LineOf(s.cart, id).None? ==>
              r.cart == s.cart + [Line(id, s.catalog[id].name, qty, s.catalog[id].price * qty)]
    ensures forall p :: p != id ==> LineOf(r.cart, p) == LineOf(s.cart, p)
    ensures r.catalog.Keys == s.catalog.Keys
    ensures r.catalog[id].stock == s.catalog[id].stock - qty
    ensures forall p :: p in s.catalog && p != id ==> r.catalog[p] == s.catalog[p]
    ensures r.phase == s.phase
  {
    var product := s.catalog[id];
    var subtotal := product.price * qty;
    State(Decrement(s.catalog, id, qty),
          Merge(s.cart, id, product.name, qty, subtotal),
          s.total + subtotal,
          s.phase)
  }

  /** Ends the selection loop: the summary is produced, and the payment prompt
      shown, only when the running total is positive. */
  function Close(s: State): (r: State)
    ensures r.catalog == s.catalog && r.cart == s.cart && r.total == s.total
    ensures s.total > 0 ==> r.phase.Paying?
    ensures s.total <= 0 ==> r.phase == Done(None)
  {
    match Summarize(s.cart, s.total)
    case Some(summary) => s.(phase := Paying(summary))
    case None => s.(phase := Done(None))
  }

  /** The pair a step accepts, if it accepts one: a selection event at the
      selection prompt that passes validation. */
  function Accepted(s: State, e: Event): (r: Option<Pick>)
    ensures r.Some? ==> r.value.id in s.catalog && r.value.id != 0
    ensures r.Some? ==> 0 < r.value.qty <= s.catalog[r.value.id].stock
    ensures r.Some? ==> s.phase.Selecting? && e == Select(r.value.id, r.value.qty)
    ensures s.phase.Selecting? && e.Select? && Validate(s.catalog, e.id, e.qty).Accept? ==>
              r == Some(Pick(e.id, e.qty))
  {
    if s.phase.Selecting? && e.Select? && Validate(s.catalog, e.id, e.qty).Accept?
    then Some(Pick(e.id, e.qty))
    else None
  }

  /** A selection read at the selection prompt: 0 closes the loop, an accepted
      pair is bought and the continue prompt follows, and a rejected pair leaves
      the state as it was. */
  function Choose(s: State, id: int, qty: int): (r: State)
    ensures r.catalog.Keys == s.catalog.Keys
    ensures forall p :: p in s.catalog ==> r.catalog[p].name == s.catalog[p].name && r.catalog[p].price == s.catalog[p].price
    ensures Validate(s.catalog, id, qty).Accept? ==> id in s.catalog && r == Purchase(s, id, qty).(phase := Confirming)
    ensures !Validate(s.catalog, id, qty).Accept? ==> r.catalog == s.catalog && r.cart == s.cart && r.total == s.total
    ensures id == 0 ==> r == Close(s)
    ensures id != 0 && !Validate(s.catalog, id, qty).Accept? ==> r == s
  {
    match Validate(s.catalog, id, qty)
    case Finish => Close(s)
    case Accept(_, _) => Purchase(s, id, qty).(phase := Confirming)
    case _ => s
  }

  /** One event. An event that does not belong to the current prompt leaves the
      state as it is. Only an accepted selection changes catalog, cart or total;
      a rejected, garbled or finishing selection and every answer leave all
      three as they were. */
  function Step(s: State, e: Event): (r: State)
    ensures r.catalog.Keys == s.catalog.Keys
    ensures forall p :: p in s.catalog ==>
              r.catalog[p].name == s.catalog[p].name && r.catalog[p].price == s.catalog[p].price
    ensures Accepted(s, e).None? ==> r.catalog == s.catalog && r.cart == s.cart && r.total == s.total
    ensures Accepted(s, e).Some? ==> r == Purchase(s, e.id, e.qty).(phase := Confirming)
    ensures s.phase.Selecting? && (e.Garbled? || (e.Select? && e.id != 0 && Accepted(s, e).None?)) ==> r == s
    ensures s.phase.Selecting? && e.Select? && e.id == 0 ==> r == Close(s)
    ensures s.phase.Confirming? && e.Answer? && WantsMore(e.text) ==> r == s.(phase := Selecting)
    ensures s.phase.Confirming? && e.Answer? && !WantsMore(e.text) ==> r == Close(s)
    ensures s.phase.Paying? && e.Answer? ==> r == s.(phase := Done(Some(Pay(s.phase.summary, e.text))))
    ensures s.phase.Done? ==> r == s
  {
    match s.phase
    case Selecting =>
      (match e
       case Select(id, qty) => Choose(s, id, qty)
       case _ => s)
    case Confirming =>
      (match e
       case Answer(text) => if WantsMore(text) then s.(phase := Selecting) else Close(s)
       case _ => s)
    case Paying(summary) =>
      (match e
       case Answer(text) => s.(phase := Done(Some(Pay(summary, text))))
       case _ => s)
    case Done(_) => s
  }

  /** A whole session as a fold of `Step` over its inputs. */
  function Run(s: State, events: seq<Event>): (r: State)
    ensures r.catalog.Keys == s.catalog.Keys
    ensures forall p :: p in s.catalog ==>
              r.catalog[p].name == s.catalog[p].name && r.catalog[p].price == s.catalog[p].price
    ensures s.phase.Done? ==> r == s
    ensures (forall i :: 0 <= i < |events| ==> !events[i].Select?) ==>
              r.catalog == s.catalog && r.cart == s.cart && r.total == s.total
    decreases |events|
  {
    if |events| == 0 then s else Run(Step(s, events[0]), events[1..])
  }

  /** A run starting with `e` is `e`'s step followed by the rest of the run. */
  lemma RunCons(s: State, e: Event, rest: seq<Event>)
    ensures Run(s, [e] + rest) == Run(Step(s, e), rest)
    ensures Run(s, [e]) == Step(s, e)
  {
    assert ([e] + rest)[1..] == rest;
    assert [e][1..] == [];
  }

  /** The pairs accepted during `Run(s, events)`, in order. */
  function Trace(s: State, events: seq<Event>): seq<Pick>
    decreases |events|
  {
    if |events| == 0 then [] else StepPicks(s, events[0]) + Trace(Step(s, events[0]), events[1..])
  }

  /** The accepted pair of one step as a list of zero or one pairs. */
  function StepPicks(s: State, e: Event): seq<Pick>
  {
    match Accepted(s, e)
    case Some(k) => [k]
    case None => []
  }

  /** Units of `id` among accepted pairs. */
  function PickedOf(picks: seq<Pick>, id: int): int
    decreases |picks|
  {
    if |picks| == 0 then 0
    else (if picks[0].id == id then picks[0].qty else 0) + PickedOf(picks[1..], id)
  }

  /** Units among all accepted pairs. */
  function PickedTotal(picks: seq<Pick>): int
    decreases |picks|
  {
    if |picks| == 0 then 0 else picks[0].qty + PickedTotal(picks[1..])
  }

  /** A cart line agrees with the catalog: it names a catalog product, copies its
      name, holds at least one unit, and costs price times quantity. */
  ghost predicate LineAgrees(c: Catalog, l: Line)
  {
    && l.id in c
    && l.name == c[l.id].name
    && l.quantity > 0
    && l.subtotal == c[l.id].price * l.quantity
  }

  /** The catalog keeps its products, names and prices, no stock is negative,
      and every unit of the original stock is either on the shelf or in the cart. */
  ghost predicate StockConserved(orig: Catalog, s: State)
  {
    && s.catalog.Keys == orig.Keys
    && (forall p :: p in orig ==>
          && s.catalog[p].name == orig[p].name
          && s.catalog[p].price == orig[p].price
          && s.catalog[p].stock >= 0
          && orig[p].stock == s.catalog[p].stock + QuantityOf(s.cart, p))
  }

  /** At most one line per product, and every line agrees with the catalog. */
  ghost predicate CartAgrees(s: State)
  {
    && Unique(s.cart)
    && AllAgree(s.catalog, s.cart)
  }

  /** A summary shown or a receipt issued is the one the current cart and total give. */
  ghost predicate PhaseAgrees(s: State)
  {
    && (s.phase.Paying? ==> Summarize(s.cart, s.total) == Some(s.phase.summary))
    && (s.phase.Done? ==>
          match s.phase.receipt
          case Some(rc) => Summarize(s.cart, s.total) == Some(rc.summary)
          case None => Summarize(s.cart, s.total).None?)
  }

  /** What holds of every state reachable from `Start(orig)`: stock is
      conserved, the cart agrees with the catalog, the running total is the sum
      of the line subtotals, and the phase agrees with cart and total. */
  ghost predicate Inv(orig: Catalog, s: State)
  {
    && WellFormed(orig)
    && StockConserved(orig, s)
    && CartAgrees(s)
    && s.total == Sum(s.cart, Subtotal)
    && PhaseAgrees(s)
  }

  /** A fresh session on a well-formed catalog satisfies the invariant. */
  lemma StartInv(c: Catalog)
    requires WellFormed(c)
    ensures Inv(c, Start(c))
  {
  }

  /** Every line of `cart` agrees with `c`. */
  ghost predicate AllAgree(c: Catalog, cart: Cart)
  {
    forall i :: 0 <= i < |cart| ==> LineAgrees(c, cart[i])
  }

  /** When every line agrees with the catalog, so does the line found for any
      product, and the product's recorded quantity and subtotal match. */
  lemma LineOfAgrees(c: Catalog, cart: Cart, p: int)
    requires AllAgree(c, cart)
    ensures LineOf(cart, p).Some? ==> LineAgrees(c, LineOf(cart, p).value)
    ensures QuantityOf(cart, p) >= 0
    ensures p in c ==> SubtotalOf(cart, p) == c[p].price * QuantityOf(cart, p)
  {
    match Find(cart, p)
    case Some(i) =>
      assert LineAgrees(c, cart[i]);
    case None =>
  }

  /** Agreement only looks at names and prices, which a decrement leaves alone. */
  lemma DecrementKeepsAgreement(c: Catalog, id: int, qty: int, cart: Cart)
    requires id in c
    requires AllAgree(c, cart)
    ensures AllAgree(Decrement(c, id, qty), cart)
  {
    var d := Decrement(c, id, qty);
    forall i | 0 <= i < |cart|
      ensures LineAgrees(d, cart[i])
    {
      assert LineAgrees(c, cart[i]);
    }
  }

  /** Merging a purchase of `qty` units of `id` at catalog price into a cart
      whose lines agree with the catalog yields a cart whose lines agree: the
      merged line costs price times its new quantity, and the lines of other
      products are the ones that were there. */
  lemma MergeAgrees(c: Catalog, cart: Cart, id: int, qty: int)
    requires id in c && qty > 0
    requires Unique(cart)
    requires AllAgree(c, cart)
    ensures AllAgree(c, Merge(cart, id, c[id].name, qty, c[id].price * qty))
  {
    var price := c[id].price;
    var r := Merge(cart, id, c[id].name, qty, price * qty);
    forall i | 0 <= i < |r|
      ensures LineAgrees(c, r[i])
    {
      var l := r[i];
      LineOfUnique(r, i);
      if l.id != id {
        assert LineOf(r, l.id) == LineOf(cart, l.id);
        LineOfAgrees(c, cart, l.id);
      } else {
        var before := QuantityOf(cart, id);
        LineOfAgrees(c, cart, id);
        assert l.quantity == before + qty;
        assert l.subtotal == price * before + price * qty;
        Distributes(price, before, qty);
      }
    }
  }

  /** Multiplication distributes over addition. */
  lemma Distributes(k: int, a: int, b: int)
    ensures k * (a + b) == k * a + k * b
  {
  }

  /** The purchase step of an accepted pair keeps every line in agreement with
      the catalog. */
  lemma PurchaseKeepsCart(s: State, id: int, qty: int)
    requires CartAgrees(s)
    requires Validate(s.catalog, id, qty).Accept?
    ensures CartAgrees(Purchase(s, id, qty))
  {
    var c := s.catalog;
    assert AllAgree(c, s.cart);
    MergeAgrees(c, s.cart, id, qty);
    DecrementKeepsAgreement(c, id, qty, Merge(s.cart, id, c[id].name, qty, c[id].price * qty));
  }

  /** The purchase step of an accepted pair moves exactly `qty` units of the
      product from the shelf to the cart and keeps the stock non-negative. */
  lemma PurchaseConservesStock(orig: Catalog, s: State, id: int, qty: int)
    requires StockConserved(orig, s)
    requires Validate(s.catalog, id, qty).Accept?
    ensures StockConserved(orig, Purchase(s, id, qty))
  {
    var r := Purchase(s, id, qty);
    forall p | p in orig
      ensures && r.catalog[p].name == orig[p].name
              && r.catalog[p].price == orig[p].price
              && r.catalog[p].stock >= 0
              && orig[p].stock == r.catalog[p].stock + QuantityOf(r.cart, p)
    {
      if p != id {
        assert r.catalog[p] == s.catalog[p];
        assert LineOf(r.cart, p) == LineOf(s.cart, p);
      } else {
        assert r.catalog[id].stock == s.catalog[id].stock - qty;
        assert QuantityOf(r.cart, id) == QuantityOf(s.cart, id) + qty;
      }
    }
  }

  /** The purchase step of an accepted pair preserves the invariant. */
  lemma PurchasePreservesInv(orig: Catalog, s: State, id: int, qty: int)
    requires Inv(orig, s)
    requires s.phase.Selecting?
    requires Validate(s.catalog, id, qty).Accept?
    ensures Inv(orig, Purchase(s, id, qty).(phase := Confirming))
  {
    PurchaseKeepsCart(s, id, qty);
    PurchaseConservesStock(orig, s, id, qty);
  }

  /** Every step preserves the invariant. */
  lemma StepPreservesInv(orig: Catalog, s: State, e: Event)
    requires Inv(orig, s)
    ensures Inv(orig, Step(s, e))
  {
    if Accepted(s, e).Some? {
      PurchasePreservesInv(orig, s, e.id, e.qty);
    } else {
      var t := Step(s, e);
      StepKeepsPhaseAgreement(s, e);
      assert t == s.(phase := t.phase);
    }
  }

  /** An event meant for another prompt changes nothing: an answer at the
      selection prompt, or a selection at the continue or payment prompt. */
  lemma StepIgnoresOffPrompt(s: State, e: Event)
    requires (s.phase.Selecting? && e.Answer?) || ((s.phase.Confirming? || s.phase.Paying?) && !e.Answer?)
    ensures Step(s, e) == s
  {
  }

  /** After a step that accepts nothing, any summary shown or receipt issued is
      the one the cart and total give. */
  lemma StepKeepsPhaseAgreement(s: State, e: Event)
    requires PhaseAgrees(s)
    requires Accepted(s, e).None?
    ensures PhaseAgrees(Step(s, e))
  {
    match s.phase
    case Selecting =>
      if e.Select? && e.id == 0 {
        CloseAgrees(s);
      }
    case Confirming =>
      CloseAgrees(s);
    case Paying(_) =>
    case Done(_) =>
  }

  /** Closing the selection loop shows the summary the cart gives, or none. */
  lemma CloseAgrees(s: State)
    ensures PhaseAgrees(Close(s))
  {
  }

  /** Every session run preserves the invariant. */
  lemma {:induction false} RunPreservesInv(orig: Catalog, s: State, events: seq<Event>)
    requires Inv(orig, s)
    ensures Inv(orig, Run(s, events))
    decreases |events|
  {
    if |events| > 0 {
      StepPreservesInv(orig, s, events[0]);
      RunPreservesInv(orig, Step(s, events[0]), events[1..]);
    }
  }

  /** Under the invariant the running total is never negative. */
  lemma TotalNonNegative(orig: Catalog, s: State)
    requires Inv(orig, s)
    ensures s.total >= 0
  {
    forall i | 0 <= i < |s.cart|
      ensures Subtotal(s.cart[i]) >= 0
    {
      assert LineAgrees(s.catalog, s.cart[i]);
      var l := s.cart[i];
      assert s.catalog[l.id].price >= 0;
    }
    SumNonNegative(s.cart, Subtotal);
  }

  /** Units of a product picked across two lists add up. */
  lemma {:induction false} PickedOfAppend(a: seq<Pick>, b: seq<Pick>, p: int)
    ensures PickedOf(a + b, p) == PickedOf(a, p) + PickedOf(b, p)
    decreases |a|
  {
    if |a| > 0 {
      assert (a + b)[1..] == a[1..] + b;
      PickedOfAppend(a[1..], b, p);
    } else {
      assert a + b == b;
    }
  }

  /** What one step does to one product: its cart quantity and its stock move
      by the units of it the step accepted. */
  lemma StepMerges(s: State, e: Event, p: int)
    requires p in s.catalog
    ensures var t := Step(s, e);
            var n := PickedOf(StepPicks(s, e), p);
            && p in t.catalog
            && QuantityOf(t.cart, p) == QuantityOf(s.cart, p) + n
            && t.catalog[p].stock == s.catalog[p].stock - n
  {
    var t := Step(s, e);
    match Accepted(s, e)
    case Some(k) =>
      assert t == Purchase(s, k.id, k.qty).(phase := Confirming);
      if k.id != p {
        assert LineOf(t.cart, p) == LineOf(s.cart, p);
      } else {
        assert StepPicks(s, e) == [k];
      }
    case None =>
      assert StepPicks(s, e) == [];
  }

  /** What a run does to one product: its cart quantity grows by exactly the
      units of it accepted during the run, and its stock drops by the same
      units. Repeated selections of a product add up; none overwrites an
      earlier one. */
  lemma {:induction false} RunMerges(s: State, events: seq<Event>, p: int)
    requires p in s.catalog
    ensures p in Run(s, events).catalog
    ensures QuantityOf(Run(s, events).cart, p) == QuantityOf(s.cart, p) + PickedOf(Trace(s, events), p)
    ensures Run(s, events).catalog[p].stock == s.catalog[p].stock - PickedOf(Trace(s, events), p)
    decreases |events|
  {
    if |events| > 0 {
      var e := events[0];
      var t := Step(s, e);
      assert Run(s, events) == Run(t, events[1..]);
      assert Trace(s, events) == StepPicks(s, e) + Trace(t, events[1..]);
      StepMerges(s, e, p);
      RunMerges(t, events[1..], p);
      PickedOfAppend(StepPicks(s, e), Trace(t, events[1..]), p);
    }
  }

  /** The units in the cart grow by exactly the units accepted during a run. */
  lemma {:induction false} RunCountsUnits(s: State, events: seq<Event>)
    ensures Sum(Run(s, events).cart, Quantity) == Sum(s.cart, Quantity) + PickedTotal(Trace(s, events))
    decreases |events|
  {
    if |events| > 0 {
      var e := events[0];
      var t := Step(s, e);
      var rest := Trace(t, events[1..]);
      RunFirst(s, events);
      RunCountsUnits(t, events[1..]);
      StepCountsUnits(s, e);
      match Accepted(s, e)
      case Some(k) =>
        assert ([k] + rest)[1..] == rest;
      case None =>
        assert [] + rest == rest;
    }
  }

  /** Every pair accepted during a run names a product of the catalog and has a
      positive quantity. */
  lemma {:induction false} TraceIsValid(s: State, events: seq<Event>)
    ensures forall k :: k in Trace(s, events) ==> k.id in s.catalog && k.qty > 0
    decreases |events|
  {
    if |events| > 0 {
      var t := Step(s, events[0]);
      RunFirst(s, events);
      TraceIsValid(t, events[1..]);
      assert t.catalog.Keys == s.catalog.Keys;
    }
  }

  /** A non-empty run, and its trace, start with the first event's step. */
  lemma RunFirst(s: State, events: seq<Event>)
    requires |events| > 0
    ensures Run(s, events) == Run(Step(s, events[0]), events[1..])
    ensures Trace(s, events) == StepPicks(s, events[0]) + Trace(Step(s, events[0]), events[1..])
  {
  }

  /** One step adds to the cart exactly the units it accepts. */
  lemma StepCountsUnits(s: State, e: Event)
    ensures Sum(Step(s, e).cart, Quantity) == Sum(s.cart, Quantity) + PickedTotal(StepPicks(s, e))
  {
    match Accepted(s, e)
    case Some(k) =>
      assert PickedTotal([k]) == k.qty + PickedTotal([k][1..]);
    case None =>
  }

  /** A whole session from a well-formed catalog: each product's cart line holds
      the sum of the quantities accepted for it and costs its price times that
      sum; its stock is the original stock less that sum and is never negative;
      the cart has at most one line per product; and the running total is the
      sum of the line subtotals and is never negative. */
  lemma SessionMerge(c: Catalog, events: seq<Event>, p: int)
    requires WellFormed(c)
    requires p in c
    ensures var f := Run(Start(c), events);
            var n := PickedOf(Trace(Start(c), events), p);
            && QuantityOf(f.cart, p) == n
            && SubtotalOf(f.cart, p) == c[p].price * n
            && p in f.catalog
            && f.catalog[p].stock == c[p].stock - n >= 0
    ensures Unique(Run(Start(c), events).cart)
    ensures Run(Start(c), events).total == Sum(Run(Start(c), events).cart, Subtotal)
    ensures Run(Start(c), events).total >= 0
  {
    StartInv(c);
    RunPreservesInv(c, Start(c), events);
    RunMerges(Start(c), events, p);
    LineOfAgrees(Run(Start(c), events).catalog, Run(Start(c), events).cart, p);
    TotalNonNegative(c, Run(Start(c), events));
  }

  /** With positive prices, the running total and the unit count of a state
      satisfying the invariant are positive exactly when the cart is non-empty. */
  lemma CartSigns(orig: Catalog, s: State)
    requires Inv(orig, s)
    requires forall p :: p in orig ==> orig[p].price > 0
    ensures s.total > 0 <==> |s.cart| > 0
    ensures Sum(s.cart, Quantity) > 0 <==> |s.cart| > 0
  {
    forall i | 0 <= i < |s.cart|
      ensures Quantity(s.cart[i]) > 0 && Subtotal(s.cart[i]) > 0
    {
      var l := s.cart[i];
      assert LineAgrees(s.catalog, l);
      assert s.catalog[l.id].price == orig[l.id].price;
    }
    if |s.cart| > 0 {
      SumPositive(s.cart, Quantity);
      SumPositive(s.cart, Subtotal);
    }
  }

  /** With positive prices, a session ends with a summary exactly when at least
      one selection was accepted. */
  lemma SummaryIffPurchased(c: Catalog, events: seq<Event>)
    requires WellFormed(c)
    requires forall p :: p in c ==> c[p].price > 0
    ensures Summarize(Run(Start(c), events).cart, Run(Start(c), events).total).Some?
            <==> |Trace(Start(c), events)| > 0
  {
    var f := Run(Start(c), events);
    var picks := Trace(Start(c), events);
    StartInv(c);
    RunPreservesInv(c, Start(c), events);
    RunCountsUnits(Start(c), events);
    TraceIsValid(Start(c), events);
    PickedTotalSign(picks);
    CartSigns(c, f);
  }

  /** A list of accepted pairs with positive quantities has a positive unit
      count exactly when it is non-empty. */
  lemma {:induction false} PickedTotalSign(picks: seq<Pick>)
    requires forall k :: k in picks ==> k.qty > 0
    ensures PickedTotal(picks) >= 0
    ensures PickedTotal(picks) > 0 <==> |picks| > 0
    decreases |picks|
  {
    if |picks| > 0 {
      PickedTotalSign(picks[1..]);
    }
  }

  /** A summary shown at the end of a session from a well-formed catalog has
      one row per product bought, in the order first selected; its total
      quantity is the number of units accepted during the session and equals
      the sum of its rows' quantities; its total amount is the sum of its rows'
      amounts. The receipt, once issued, carries that same summary. */
  lemma SummaryAgrees(c: Catalog, events: seq<Event>)
    requires WellFormed(c)
    ensures var f := Run(Start(c), events);
            Summarize(f.cart, f.total).Some? ==>
              var sm := Summarize(f.cart, f.total).value;
              && sm.rows == Rows(f.cart)
              && sm.totalQuantity == PickedTotal(Trace(Start(c), events))
              && sm.totalQuantity == Sum(sm.rows, RowQuantity)
              && sm.totalAmount == Sum(sm.rows, RowAmount)
    ensures var f := Run(Start(c), events);
            f.phase.Done? && f.phase.receipt.Some? ==>
              Summarize(f.cart, f.total) == Some(f.phase.receipt.value.summary)
  {
    var f := Run(Start(c), events);
    StartInv(c);
    RunPreservesInv(c, Start(c), events);
    RunCountsUnits(Start(c), events);
    if f.total > 0 {
      SummaryAmountIsRowSum(f.cart, f.total);
    }
  }
}
