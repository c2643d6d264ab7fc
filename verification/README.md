# Vending console cart model

A Dafny model of the cart-and-stock core of the console vending script
`main.py`. The script keeps a catalog of products (name, price in whole CLP,
units in stock). For each customer it repeatedly validates a (product id,
quantity) selection, merges it into a cart keyed by product id, and takes the
units out of stock at once. When the customer stops, it prints a summary and
charges 3% less for credit payment when the total is positive.

The model is functional. Operator input is a sequence of already-parsed events:
- `Select(id, qty)`: a selection read as two integers;
- `Garbled`: selection input that `int()` could not read, or any other error raised while reading it;
- `Answer(text)`: a line typed at the continue or the payment prompt.

`Session.Step` is the state machine over these events and `Session.Run` folds it over a
whole session. The catalog is part of the state, so stock taken in one session stays taken.

Modules, one per part of the program:
- `Catalog` (`catalog.dfy`): the product record, the seed catalog, and the stock decrement.
- `Cart` (`cart.dfy`): cart lines in insertion order, lookup by id, and the merge.
- `Selection` (`selection.dfy`): validation of a candidate pair, in the program's order.
- `Prompts` (`prompts.dfy`): Python's `str.strip()`, the continue answer and the payment code.
- `Summary` (`summary.dfy`): summary rows and totals, and the payment and its discount.
- `Session` (`session.dfy`): the purchase step, the phases, the session fold, its invariant and lemmas about whole sessions.
- `Scenarios` (`scenarios.dfy`): concrete sessions (exact stock, repeated selection, sentinel, discount).
- `Sums`, `Wrappers`: a generic sum over sequences and `Option`.

Decisions worth knowing when reading the model:
- The cart is a `seq` of lines, each with the product id it is keyed by. A Python dict keeps
  insertion order and has one entry per key. `Cart.Unique` states the one-entry-per-key
  property, and `Session.Inv` shows every reachable cart keeps it.
- `Session.Inv` holds in every state a session reaches from a well-formed catalog. Its parts are:
  - catalog keys, names and prices never change;
  - stock is never negative;
  - every unit of the original stock is on the shelf or in the cart;
  - every line costs price times quantity;
  - `total_acumulado` equals the sum of line subtotals;
  - a summary shown is the one the cart gives.
- The discount is computed in hundredths of a peso. The program computes
  `total - total * 0.03` in floating point and prints it with two decimals. For a whole-peso
  total the exact result has at most two decimals, so `97 * total` hundredths is the printed
  value whenever the float error stays below half a hundredth.
- One `Select` event folds the selection prompt's id line and quantity line into one
  event. The quantity line is read only for a known non-zero id, so the quantity carried
  with 0 or an unknown id is ignored. An unreadable id or quantity is one `Garbled` event,
  after which the program asks for the id again. The continue and payment prompts each
  read one line, an `Answer`.
- An event that does not belong to the current prompt leaves the state unchanged (for
  example a `Select` while waiting at the continue prompt). The program never produces
  such an input sequence; the model accepts it so that `Session.Step` is total, and
  `Session.StepIgnoresOffPrompt` states that nothing changes.

## Model

| member | source | states |
|---|---|---|
| Catalog.SeedWellFormed | main.py:25-41 | The seed catalog has ids 1 to 15, never the sentinel 0, positive prices and non-negative stock |
| Catalog.Decrement | main.py:150 | Stock of the chosen product drops by exactly the quantity, with no floor check; keys, names, prices and every other product are unchanged |
| Selection.Validate | main.py:81-95 | Each outcome holds exactly under its condition, tested in this order: id 0 finishes; an unknown id is rejected; a quantity ≤ 0 is rejected; a quantity above stock is rejected and reports the remaining stock; otherwise the pair is accepted, and then id ∈ catalog and 0 < qty ≤ stock |
| Selection.AcceptedKeepsStock | main.py:88-93 | An accepted pair names a catalog product, and decrementing it keeps every stock non-negative while strictly reducing the product's stock |
| Cart.Find | main.py:139 | Returns the first position holding the id, or nothing exactly when no line has that id |
| Cart.Merge | main.py:139-147 | If the id has a line, its quantity and subtotal grow by the new amounts and its name is kept. Otherwise a line with the given name, quantity and amount is appended at the end. Lines of other ids keep position and content, at most one line per id is preserved, and the cart's unit and amount sums grow by exactly the new amounts |
| Session.Purchase | main.py:133-150 | The running total grows by price × qty. The product's cart quantity grows by qty and its subtotal by price × qty, and a new line carries the product's name. Other products' lines are untouched. The product's stock drops by qty and no other product changes |
| Session.Close | main.py:153-156 | Ending selection leaves catalog, cart and total unchanged; the payment prompt follows only when the total is positive, otherwise the session ends without a receipt |
| Session.Accepted | main.py:81-95 | A step accepts a pair exactly when it is a `Select` event at the selection prompt that validation accepts. The accepted pair is the event's own id and quantity, and it has a non-zero id in the catalog and 0 < qty ≤ stock |
| Session.Choose | main.py:81-95 | At the selection prompt: id 0 closes the loop, an accepted pair is exactly the purchase step followed by the continue prompt, and a rejected pair leaves the state as it was; catalog keys, names and prices never change |
| Session.Step | main.py:78-178 | Only an accepted selection changes catalog, cart or total, and then it is exactly the purchase step. Rejected, garbled and finishing selections and all answers leave all three unchanged. A rejected or garbled selection leaves the whole state unchanged, so the session stays at the selection prompt. Id 0 at the selection prompt ends selection (`Close`). At the continue prompt, an answer returns to the selection prompt exactly when `WantsMore` holds for it and otherwise ends selection. At the payment prompt, an answer issues the receipt `Pay` gives for the shown summary and that answer. A finished session absorbs every event. Catalog keys, names and prices never change |
| Session.Start | main.py:122-124 | A session begins at the selection prompt on the given catalog, with no line and zero units for any product, and a total of 0 that equals the (empty) sum of subtotals |
| Session.StartInv | main.py:122-124 | A new session (total 0, empty cart) on a well-formed catalog satisfies the invariant |
| Session.MergeAgrees | main.py:135-147 | Merging a purchase at catalog price into a cart whose lines each cost price × quantity keeps every line at price × quantity, including the merged one |
| Session.PurchaseConservesStock | main.py:140-150 | After a purchase, every product's original stock still equals its shelf stock plus its cart quantity, and no stock is negative |
| Session.PurchasePreservesInv | main.py:133-150 | The purchase step of an accepted pair preserves the whole invariant |
| Session.StepPreservesInv | main.py:126-156 | Every step preserves the invariant |
| Session.StepIgnoresOffPrompt | main.py:78-178 | An answer at the selection prompt, or a selection or garbled input at the continue or payment prompt, leaves the whole state unchanged |
| Session.StepKeepsPhaseAgreement | main.py:152-178 | After a step that accepts nothing, any summary shown or receipt issued is the one the cart and total give |
| Session.Run | main.py:126-156 | A session never changes catalog keys, names or prices. A finished session stays as it is. A run without selections leaves catalog, cart and total as they were |
| Session.RunPreservesInv | main.py:126-156 | Every session run preserves the invariant: at most one line per id, total equals the sum of subtotals, stock conserved and non-negative |
| Session.TotalNonNegative | main.py:122-136 | The running total is never negative |
| Session.RunMerges | main.py:139-141 | Over a run, each product's cart quantity grows by the sum of the quantities accepted for it, so an earlier selection is never overwritten; its stock drops by the same sum |
| Session.RunCountsUnits | main.py:166 | The cart's unit count grows by exactly the units of all pairs accepted during the run |
| Session.TraceIsValid | main.py:84-95 | Every pair accepted during a run names a product of the catalog and has a positive quantity |
| Session.SessionMerge | main.py:122-150 | After any session from a well-formed catalog: each product's line quantity is the sum of its accepted quantities, and its subtotal is price × that sum. Its stock is the original stock minus that sum and is never negative. There is at most one line per id, and the total equals the sum of subtotals and is non-negative |
| Session.CartSigns | main.py:156 | With positive prices, the total and the unit count are positive exactly when the cart is non-empty |
| Session.SummaryIffPurchased | main.py:156 | With positive prices, a session ends with a summary exactly when at least one selection was accepted |
| Session.SummaryAgrees | main.py:156-168 | The summary's rows are the cart's lines in insertion order. Its total quantity equals the units accepted in the session and the sum of the rows' quantities. Its total amount equals the sum of the rows' amounts. An issued receipt carries that summary |
| Summary.Rows | main.py:161-164 | One row per cart line, in cart order, with the line's name, quantity and subtotal |
| Summary.Summarize | main.py:156-168 | A summary exists exactly when the total is positive. Its rows follow the cart, its total quantity is the sum of the rows' quantities, and its total amount is the running total |
| Summary.SummaryAmountIsRowSum | main.py:161-168 | When the total is the sum of line subtotals, the printed amount is the sum of the printed rows' amounts |
| Summary.FinalCents | main.py:172-178 | Credit charges 97% of the total and debit charges the total, both in hundredths; the charge is never negative and never above the total |
| Summary.Pay | main.py:171-178 | The answer whose stripped form is "2" is credit; credit charges the total less 3%; every other answer charges the total |
| Prompts.TrimLeft | main.py:152 | Drops exactly the leading whitespace that Python's `isspace` recognises: the result is a suffix, everything dropped is whitespace, and the result does not start with whitespace |
| Prompts.TrimRight | main.py:152 | Drops exactly the trailing whitespace: the result is a prefix, everything dropped is whitespace, and the result does not end with whitespace |
| Prompts.Strip | main.py:152 | `str.strip()` as both prompts use it (the payment prompt at main.py:171 too): the result is no longer than the answer, neither starts nor ends with whitespace, and is empty exactly when the answer is blank |
| Prompts.StripIsSlice | main.py:152 | The stripped answer is a contiguous slice of the answer with only whitespace before and after it, so `str.strip()` removes the whitespace ends and nothing else |
| Prompts.StrippedToChar | main.py:152 | The stripped answer is the single character `ch` exactly when `ch` is not whitespace and the answer is `ch` with only whitespace on either side |
| Prompts.WantsMore | main.py:152-153 | A blank answer never continues the session |
| Prompts.WantsMoreShape | main.py:152-153 | An answer continues the session exactly when it is "s" or "S" with only whitespace on either side |
| Prompts.PaysByCredit | main.py:171-172 | A blank answer never selects credit |
| Prompts.PaysByCreditShape | main.py:171-172 | An answer selects credit exactly when it is "2" with only whitespace on either side |
| Prompts.StripPadding | main.py:152 | Whitespace on either side never changes the stripped answer |
| Prompts.ContinueAnswers | main.py:152-154 | "s" or "S" with any surrounding whitespace continues; "n" and a blank answer stop |
| Prompts.PaymentAnswers | main.py:171-172 | A padded "2" selects credit and a padded "1" selects debit |
| Scenarios.GarbledStays | main.py:97-102 | Unreadable selection input at the selection prompt leaves the state, prompt included, as it was |
| Scenarios.SentinelOnEmptyCart | main.py:81-82 | Entering 0 first ends the session with no summary and an untouched catalog and cart |
| Scenarios.ExactStockThenRejected | main.py:91-93 | Buying exactly the stock succeeds and leaves 0. A further request for 1 unit is then rejected reporting 0 remaining, and changes nothing |
| Scenarios.RepeatedSelectionMerges | main.py:139-154 | From a new session, buying `a` units of a product, giving any answer that continues, and buying `b` more makes a single line whose quantity is a + b and whose subtotal charges both. The stock drops by a + b, the total charges both, and the session waits at the continue prompt |
| Scenarios.FreeProductNoSummary | main.py:156 | In any catalog, buying 2 units of a zero-price product and answering "n" leaves a one-line cart but no summary, because the guard is on the total and not on the cart |
| Scenarios.DiscountOnThousand | main.py:172-176 | Credit on 1000 charges 970.00 and debit charges 1000.00 |
| Scenarios.CheckoutByCredit | main.py:152-176 | Answering "n" and then a padded "2" with one line in the cart issues a receipt with that line's row and totals, charging 97% |

## Left out

- Console output is not modelled: the `tabulate` tables, the catalog listing (`mostrar_productos`), the prompts' text, the diagnostics and the farewell lines. They are plumbing and a third-party library; the diagnostics appear only as the verdict that selects them (`OutOfStock` carries the remaining stock the message reports).
- Text-to-integer parsing with `int(...)` is not modelled. Selection input arrives parsed as `Select(id, qty)`, and any `ValueError` or other exception while reading it arrives as `Garbled`, which changes nothing.
- Selection.Validate: the quantity of a `Select` event is ignored when the id is 0 or unknown. The program does not read a quantity in those cases; the event form carries one anyway.
- Summary.FinalCents: does not model floating-point rounding. It states the exact 3% discount in integer hundredths, which is what the two-decimal display shows unless the float error reaches half a hundredth.
- The outer `while True` loop over customers and the `KeyboardInterrupt` exit are not modelled; a state's catalog can be passed to the next `Session.Start`.
- The customer name is not modelled. It is read once, printed, and never validated.
- Unicode lower-casing is not modelled in general. The continue answer is compared after `lower()` with "s", and only "s" and "S" lower-case to "s", so `Prompts.WantsMore` tests those two.
- Scenarios.RepeatedSelectionMerges: states the subtotal as price × a + price × b rather than price × (a + b). `Session.SessionMerge` states the factored form for any number of selections.
