/** Concrete sessions that pin down the console's observable behaviour. */
module Scenarios {
  import opened Wrappers
  import opened Catalog
  import opened Cart
  import opened Selection
  import opened Summary
  import opened Session
  import opened Prompts
  import opened Sums

  /** Entering 0 first ends the session at once: no summary, no payment prompt,
      and the catalog is untouched. */
  lemma SentinelOnEmptyCart(c: Catalog, qty: int)
    ensures Run(Start(c), [Select(0, qty)]) == State(c, [], 0, Done(None))
  {
    RunCons(Start(c), Select(0, qty), []);
  }

  /** The continue prompt's "s" and "n" answers. */
  lemma PlainAnswers()
    ensures WantsMore("s")
    ensures !WantsMore("n")
  {
    StripPaddedChar([], 's', []);
    StripPaddedChar([], 'n', []);
    assert [] + ['s'] + [] == "s";
    assert [] + ['n'] + [] == "n";
  }

  /** Selection input that cannot be read as integers is reported and the
      selection prompt is shown again, with nothing else changed. */
  lemma GarbledStays(s: State)
    requires s.phase.Selecting?
    ensures Run(s, [Garbled]) == s
  {
    RunCons(s, Garbled, []);
  }

  /** An accepted selection at the selection prompt is the purchase step. */
  lemma StepAccepts(s: State, id: int, qty: int)
    requires s.phase.Selecting?
    requires id != 0 && id in s.catalog && 0 < qty <= s.catalog[id].stock
    ensures Step(s, Select(id, qty)) == Purchase(s, id, qty).(phase := Confirming)
  {
    assert Accepted(s, Select(id, qty)).Some?;
  }

  /** Answering "s" at the continue prompt goes back to the selection prompt. */
  lemma StepContinues(s: State)
    requires s.phase.Confirming?
    ensures Step(s, Answer("s")) == s.(phase := Selecting)
  {
    PlainAnswers();
  }

  /** Buying exactly the units in stock succeeds and leaves 0; asking for one
      more unit of the same product in the same session is then rejected with
      0 units reported, and changes nothing. */
  lemma ExactStockThenRejected(c: Catalog, p: int)
    requires p != 0 && p in c
    requires c[p].stock > 0
    ensures var s := Run(Start(c), [Select(p, c[p].stock), Answer("s")]);
            && p in s.catalog
            && s.catalog[p].stock == 0
            && s.phase == Selecting
            && QuantityOf(s.cart, p) == c[p].stock
            && Validate(s.catalog, p, 1) == OutOfStock(0)
            && Step(s, Select(p, 1)) == s
  {
    var n := c[p].stock;
    var c1 := Decrement(c, p, n);
    var s1 := State(c1, [Line(p, c[p].name, n, c[p].price * n)], c[p].price * n, Confirming);
    var s2 := s1.(phase := Selecting);
    assert Step(Start(c), Select(p, n)) == s1 by {
      StepAccepts(Start(c), p, n);
      MergeIntoEmpty(p, c[p].name, n, c[p].price * n);
    }
    assert Step(s1, Answer("s")) == s2 by {
      StepContinues(s1);
    }
    RunTwo(Start(c), Select(p, n), Answer("s"));
    assert Find(s2.cart, p) == Some(0);
    assert Accepted(s2, Select(p, 1)).None?;
  }

  /** A two-event run is two steps. */
  lemma RunTwo(s: State, e1: Event, e2: Event)
    ensures Run(s, [e1, e2]) == Step(Step(s, e1), e2)
  {
    assert [e1, e2] == [e1] + [e2];
    RunCons(s, e1, [e2]);
  }

  /** A three-event run is three steps. */
  lemma RunThree(s: State, e1: Event, e2: Event, e3: Event)
    ensures Run(s, [e1, e2, e3]) == Step(Step(Step(s, e1), e2), e3)
  {
    assert [e1, e2, e3] == [e1] + ([e2] + [e3]);
    RunCons(s, e1, [e2] + [e3]);
    RunCons(Step(s, e1), e2, [e3]);
  }

  /** Merging into an empty cart creates the line. */
  lemma MergeIntoEmpty(p: int, name: string, a: int, x: int)
    ensures Merge([], p, name, a, x) == [Line(p, name, a, x)]
  {
  }

  /** Merging into the cart's only line of the same product adds to that line. */
  lemma MergeIntoSingle(p: int, name: string, a: int, b: int, x: int, y: int)
    ensures Merge([Line(p, name, a, x)], p, name, b, y) == [Line(p, name, a + b, x + y)]
  {
    assert Find([Line(p, name, a, x)], p) == Some(0);
  }

  /** Two selections of the same product in one session, separated by any
      answer that continues, add up in a single cart line: its quantity is
      a + b and its subtotal charges both selections at the catalog price. The
      earlier selection is not overwritten by the later one. */
  lemma RepeatedSelectionMerges(c: Catalog, p: int, a: int, b: int, yes: string)
    requires p != 0 && p in c
    requires 0 < a && 0 < b && a + b <= c[p].stock
    requires WantsMore(yes)
    ensures var s := Run(Start(c), [Select(p, a), Answer(yes), Select(p, b)]);
            && s.cart == [Line(p, c[p].name, a + b, c[p].price * a + c[p].price * b)]
            && p in s.catalog
            && s.catalog[p].stock == c[p].stock - (a + b)
            && s.total == c[p].price * a + c[p].price * b
            && s == State(Decrement(Decrement(c, p, a), p, b), s.cart, s.total, Confirming)
  {
    RunThree(Start(c), Select(p, a), Answer(yes), Select(p, b));
    BuyTwice(c, p, a, b, yes);
  }

  /** The state after buying `a` units, continuing, and buying `b` more. */
  lemma BuyTwice(c: Catalog, p: int, a: int, b: int, yes: string)
    requires p != 0 && p in c
    requires 0 < a && 0 < b && a + b <= c[p].stock
    requires WantsMore(yes)
    ensures Step(Step(Step(Start(c), Select(p, a)), Answer(yes)), Select(p, b)) ==
            State(Decrement(Decrement(c, p, a), p, b), [Line(p, c[p].name, a + b, c[p].price * a + c[p].price * b)],
                  c[p].price * a + c[p].price * b, Confirming)
  {
    var s1 := State(Decrement(c, p, a), [Line(p, c[p].name, a, c[p].price * a)], c[p].price * a, Confirming);
    BuyFirst(c, p, a);
    assert Step(s1, Answer(yes)) == s1.(phase := Selecting);
    BuyAgain(s1.(phase := Selecting), p, a, c[p].price * a, b);
  }

  /** The first purchase of a session makes the cart's only line. */
  lemma BuyFirst(c: Catalog, p: int, qty: int)
    requires p != 0 && p in c && 0 < qty <= c[p].stock
    ensures Step(Start(c), Select(p, qty)) ==
            State(Decrement(c, p, qty), [Line(p, c[p].name, qty, c[p].price * qty)], c[p].price * qty, Confirming)
  {
    StepAccepts(Start(c), p, qty);
    MergeIntoEmpty(p, c[p].name, qty, c[p].price * qty);
  }

  /** Buying more of the product on the cart's only line adds to that line. */
  lemma BuyAgain(s: State, p: int, a: int, x: int, qty: int)
    requires s.phase == Selecting && p != 0 && p in s.catalog && 0 < qty <= s.catalog[p].stock
    requires s.cart == [Line(p, s.catalog[p].name, a, x)]
    ensures Step(s, Select(p, qty)) ==
            State(Decrement(s.catalog, p, qty), [Line(p, s.catalog[p].name, a + qty, x + s.catalog[p].price * qty)],
                  s.total + s.catalog[p].price * qty, Confirming)
  {
    StepAccepts(s, p, qty);
    MergeIntoSingle(p, s.catalog[p].name, a, qty, x, s.catalog[p].price * qty);
  }

  /** The summary is guarded by the running total, not by the cart: buying only
      free products leaves a non-empty cart and still ends without a summary. */
  lemma FreeProductNoSummary(c: Catalog, p: int)
    requires p != 0 && p in c && c[p].price == 0 && c[p].stock >= 2
    ensures var s := Run(Start(c), [Select(p, 2), Answer("n")]);
            && s.cart == [Line(p, c[p].name, 2, 0)]
            && s.phase == Done(None)
  {
    var s1 := State(Decrement(c, p, 2), [Line(p, c[p].name, 2, 0)], 0, Confirming);
    BuyFirst(c, p, 2);
    StopAtZero(s1);
    RunTwo(Start(c), Select(p, 2), Answer("n"));
  }

  /** Answering "n" with a zero total ends the session without a summary. */
  lemma StopAtZero(s: State)
    requires s.phase == Confirming && s.total == 0
    ensures Step(s, Answer("n")) == s.(phase := Done(None))
  {
    StepStops(s);
  }

  /** Paying 1000 by credit charges 970.00; by debit, 1000.00. */
  lemma DiscountOnThousand()
    ensures FinalCents(1000, true) == 97000
    ensures FinalCents(1000, false) == 100000
  {
  }

  /** A padded "2" at the payment prompt is credit. */
  lemma PaddedCredit()
    ensures PaysByCredit(" 2 ")
  {
    StripPaddedChar(" ", '2', " ");
    assert " " + ['2'] + " " == " 2 ";
  }

  /** A padded "2" at the payment prompt charges 97% of the summary's total. */
  lemma PayByCredit(sm: Summary)
    ensures Pay(sm, " 2 ") == Receipt(sm, true, 97 * sm.totalAmount)
  {
    PaddedCredit();
  }

  /** Closing a one-line cart and paying by credit: "n" at the continue prompt
      shows a summary with that line's row, quantity and amount, and a padded
      "2" at the payment prompt charges 97% of the amount. */
  lemma CheckoutByCredit(s: State, line: Line)
    requires s.cart == [line] && s.total == line.subtotal > 0 && s.phase == Confirming
    ensures Run(s, [Answer("n"), Answer(" 2 ")]).phase ==
            Done(Some(Receipt(Summary([Row(line.name, line.quantity, line.subtotal)], line.quantity, line.subtotal),
                              true, 97 * line.subtotal)))
  {
    var summary := Summary([Row(line.name, line.quantity, line.subtotal)], line.quantity, line.subtotal);
    var s4 := s.(phase := Paying(summary));
    calc {
      Run(s, [Answer("n"), Answer(" 2 ")]);
      { RunTwo(s, Answer("n"), Answer(" 2 ")); }
      Step(Step(s, Answer("n")), Answer(" 2 "));
      { CloseOneLine(s, line); }
      Step(s4, Answer(" 2 "));
      { StepPaysByCredit(s4, summary); }
      s4.(phase := Done(Some(Receipt(summary, true, 97 * line.subtotal))));
    }
  }

  /** A padded "2" at the payment prompt issues a credit receipt. */
  lemma StepPaysByCredit(s: State, summary: Summary)
    requires s.phase == Paying(summary)
    ensures Step(s, Answer(" 2 ")) == s.(phase := Done(Some(Receipt(summary, true, 97 * summary.totalAmount))))
  {
    PayByCredit(summary);
  }

  /** "n" at the continue prompt with one line in the cart and a positive total
      shows the one-row summary and moves to the payment prompt. */
  lemma CloseOneLine(s: State, line: Line)
    requires s.cart == [line] && s.total == line.subtotal > 0 && s.phase == Confirming
    ensures Step(s, Answer("n")) == s.(phase := Paying(Summary([RowOf(line)], line.quantity, line.subtotal)))
  {
    StepStops(s);
    SummarizeOne(line);
  }

  /** Answering "n" at the continue prompt closes the selection loop. */
  lemma StepStops(s: State)
    requires s.phase == Confirming
    ensures Step(s, Answer("n")) == Close(s)
  {
    PlainAnswers();
  }

  /** The summary of a one-line cart with a positive subtotal. */
  lemma SummarizeOne(line: Line)
    requires line.subtotal > 0
    ensures Summarize([line], line.subtotal) == Some(Summary([RowOf(line)], line.quantity, line.subtotal))
  {
    assert Sum([line], Quantity) == line.quantity by {
      SumAppend([], line, Quantity);
      assert [] + [line] == [line];
    }
    assert Rows([line]) == [RowOf(line)];
  }
}
