# The shop, verified

A Dafny model of the demo shop that runs on the ORM: its order, stock and billing protocol, and the small cores around
it. `dafny verify dfyconfig.toml` checks all of it.

## What is modelled

**The order protocol, twice.** An order goes DRAFT, RESERVED, INVOICED or SETTLED, or CANCELLED. It takes units off
stock rows that other orders take from too.

- `ShopSession`, `OrderUseCases`, `InventoryUseCases`, `BillingUseCases` and `Shop` are the statements: a session with
  commit, rollback and a stack of savepoints; row instances on the heap that know nothing of each other (two reads of
  a row are two instances, and rewinding the tables rewinds no instance); and every use case as the loop and the
  branches it is. Each is proved to leave the committed database and to give the reply of one atomic function of
  `Spec`. `Shop.PerformAll` carries that to any sequence of calls.
- `Spec` is that atomic meaning, and `Integrity`, `Holds`, `Audit`, `Oversell`, `Ledger`, `Settlement` and `Runs` are
  what it keeps: constraints, holds, the audit trail, availability, and the books, over single calls and whole runs.
- `OrderAnswers` and `ShelfAnswers` say of every call, without the words of `Spec`, when each of its answers comes and
  what each leaves in which rows.
- `Transactions` and `Interleaving` are `reserve`, `settle` and `cancel_order` again, several in flight, one statement
  at a time: reads, stock rows locked one by one, the check, private writes, commit. `Concurrency` and `Progress` prove
  that every schedule is serial in commit order, loses no update, oversells nothing, and cannot deadlock; `TwoReserves`
  is the schedule their one assumption shuts out.

The two meet in `Spec`: both are proved against the same atomic functions.

**The smaller cores.** `Taxonomy` (the recursion over tags and the breadcrumb), `Seeder` (the forest of tags inserted in
waves), `Folds` (the two compounds folded in the program), `Pager`, `Advisor` (index hints), `Cookies` and `SetCookies`
(the dev proxy's jar, out and back) and `SessionNames` (the mark on database names).

`Rows`, `KeyOrder`, `Money`, `Logs`, `Sums` and `Sequences` hold what these share.

## What the model takes as given

- Money of two places is held as a whole number of cents; `Money` shows that `_in_cents` is exact on it.
- Ids come from sequences that do not go back on rollback: an argument of the atomic functions, a counter in the
  session. Payments and movements are never looked up by id and are kept in commit order.
- An exception leaves the use case and the session's context manager rolls back: the reply `Raised`. The engine raises
  on a failed `CHECK`, a failed foreign key, or a statement that does not compile (an `IN` of no values).
- `charge` is a parameter that returns, declines, or fails in some other way.
- The locking read takes rows one at a time in its `ORDER BY`, waits for a row somebody holds, and reads what is
  committed once it has it; locks survive a rewind and end with the transaction. This is the engine's side of
  READ COMMITTED with `FOR UPDATE` (`frameworks/shared/selectors/inventory_selectors.py:239-273`).
- `_OPEN_STATES` is DRAFT and RESERVED (`frameworks/shared/usecases/orders_usecases.py:51`).
- In the interleavings no second call on an order starts while one is in flight. Nothing in the code ensures it:
  `TwoReserves.TwoReservesHoldTwice` is a schedule in which it goes wrong, and `Concurrency.StaleReserveHoldsTwice`
  says by how much.

## Where the code does not do what is expected of it

Each of these is proved: the exact condition, and an input.

- **Holds.** Editing a line of a RESERVED order or billing it by hand with `attach_invoice` leaves units promised to
  nobody, or an order without its hold; so do `remove_stock`, which takes a row with its promises, and the two calls
  that write `reserved` outright (`Holds.HoldsAreConservedExactly`, `Holds.AttachingLosesTheHold`,
  `Holds.RemovalStripsTheHold`). The one other call that moves the difference is `cancel_order`, and there it is a
  repair: after `remove_stock` took a row, cancelling its order gives up what was left without a hold
  (`Holds.CancellingRepairs`). The last line taken off a RESERVED order strands it: neither `cancel_order` nor `settle`
  can compile its locking read any more (`Runs.LastLineOffStrandsTheOrder`).
- **Oversell.** `ship` compares with `on_hand` and not with what is available, so it can send away promised units
  (`Oversell.OversellsExactly`, `Oversell.ShipIgnoresPromises`).
- **Unpaid settlements.** A word that is no payment kind makes `_pay` return without a payment, and the order is shipped
  and SETTLED all the same (`Ledger.SettledIsPaidExactly`, `Ledger.ChequesSettleUnpaid`).
- **The decline.** The documentation of `settle` says the rewind takes the payment, the shipment and the state with it
  (`frameworks/shared/aio/orders_usecases.py:454-476` and `512-514`). In the code the charge comes before the shipment
  (`505-510`), so on a decline only the payment is there to rewind and the instances are not stale yet
  (`Transactions.InvoicingRuns`). The model follows the code; the rows are read again all the same.
- **Breadcrumbs.** `if current.parent_id` is false of id zero, so a tag with that id is left out of every breadcrumb
  below it (`Taxonomy.BreadcrumbIsTheAncestryExactly`, `Taxonomy.ZeroIsLeftOut`).
- **Session names.** A name that is empty or holds a line break is marked, but the mark does not read back and is put on
  again (`SessionNames.SessionOfInvertsScopedExactly`, `SessionNames.ScopedIsIdempotentExactly`,
  `SessionNames.TheEmptyNameIsMarkedTwice`).
- **Cookies.** `Path =/` with a blank before the `=` is not recognised as a path by the proxy and is by a user agent
  (`SetCookies.ScopedExactly`, `SetCookies.ABlankBeforeTheSign`).
- **Advisor.** The worst duration starts from zero, so it is one that was measured if and only if some slow query on the
  column has a duration that is not negative (`Advisor.WorstIsAttainedExactly`, `Advisor.NegativeWorstIsZero`); with a
  threshold that is not negative it always is (`Advisor.WorstIsMeasured`).

## Model

| member | source | states |
|---|---|---|
| `ShopSession.Session.Commit` | src/snakeorm/session/asyncsession.py:628-630 | what was working is committed, and no savepoint is left |
| `ShopSession.Session.Rollback` | src/snakeorm/session/asyncsession.py:632-634 | the working tables are the committed ones again |
| `ShopSession.Session.Savepoint` | src/snakeorm/session/asyncsession.py:597-609 | the working tables are remembered on top of the stack |
| `ShopSession.Session.RollbackToSavepoint` | src/snakeorm/session/asyncsession.py:597-614 | the tables go back to the last savepoint; no row instance is touched |
| `ShopSession.Session.ReleaseSavepoint` | src/snakeorm/session/asyncsession.py:597-614 | the last savepoint is forgotten and the tables stay |
| `ShopSession.Session.FirstOrder` | src/snakeorm/session/asyncsession.py:310-315 | a new instance with the row's values, or null exactly when there is no row |
| `ShopSession.Session.FirstStock` | frameworks/shared/selectors/inventory_selectors.py:138-145 | a new instance of the pair's row, or null exactly when there is none |
| `ShopSession.Session.AllLines` | frameworks/shared/selectors/orders_selectors.py:192-202 | every line of the order once, in the ascending order of its SKUs |
| `ShopSession.Session.StockBySku` | frameworks/shared/aio/orders_usecases.py:94-110 | one new instance for each named pair that has a row, under its SKU, saying what the table says; refused exactly when no SKU is named |
| `ShopSession.Session.UpdateOrder` | src/snakeorm/session/asyncsession.py:357-366 | every non-key column of the row is written over from the instance |
| `ShopSession.Session.UpdateStock` | frameworks/shared/models/inventory_models.py:271-275 | the row is written over from the instance, unless a level is negative: then nothing changes |
| `ShopSession.Session.AddInvoice` | src/snakeorm/session/asyncsession.py:332-355 | a new row under the sequence's next id, which is spent even if the foreign key refuses |
| `ShopSession.Session.AddLines` | frameworks/shared/aio/orders_usecases.py:300-311 | all the lines go in or, if one fails a `CHECK`, none does |
| `ShopSession.Session.UpsertStock` | frameworks/shared/services/inventory_services.py:94-113 | a new pair reserves nothing; an existing one changes `on_hand` and nothing else |
| `ShopSession.Session.AddToReserved` | frameworks/shared/services/inventory_services.py:218-230 | every row of the warehouse, and no other, promises so many units more |
| `KeyOrder.SortedListsTheKeys` | frameworks/shared/selectors/inventory_selectors.py:184-195 | the statement's rows are the set of keys, each once, strictly ascending |
| `KeyOrder.TakesTheStockedSkus` | frameworks/shared/selectors/inventory_selectors.py:175-195 | exactly the stocked pairs of one warehouse among the SKUs named, in ascending order |
| `KeyOrder.TakesTheNamedPairs` | frameworks/shared/selectors/inventory_selectors.py:198-227 | exactly the stocked pairs that were named, no other crossing of the two columns, ascending over the whole key |
| `Money.ToIntegral` | frameworks/shared/aio/orders_usecases.py:113-115 | the nearest integer, and of two equally near the even one |
| `Money.InCentsIsExact` | frameworks/shared/aio/orders_usecases.py:113-115 | a two-place total is the same number of cents: the seam between the two kinds of money rounds nothing away |
| `OrderUseCases.HoldAll` | frameworks/shared/aio/orders_usecases.py:436-437 | the loop of `reserve` writes the specification's whole move, or fails exactly when some row would break a `CHECK` |
| `OrderUseCases.ReleaseAll` | frameworks/shared/aio/orders_usecases.py:391-394 | the same for a release, passing over lines whose pair has no row |
| `OrderUseCases.ShipAll` | frameworks/shared/aio/orders_usecases.py:508-509 | the same for a shipment, with one sale a line in the order of the lines |
| `OrderUseCases.ShipHeldUnits` | frameworks/shared/aio/orders_usecases.py:130-143 | both columns of the instance fall by the units, the row is written over, and a sale of minus the units is recorded; refused exactly when a level would go negative |
| `OrderUseCases.SufficesMeansAvailable` | frameworks/shared/aio/orders_usecases.py:428-434 | the decision made on the loaded instances is the availability of the table |
| `OrderUseCases.Reserve` | frameworks/shared/aio/orders_usecases.py:400-440 | reply and committed database are those of the atomic `Spec.Reserve`; the session comes back idle; `OrderAnswers.ReserveAnswers` and `ReserveLeaves` say which they are |
| `OrderUseCases.CancelOrder` | frameworks/shared/aio/orders_usecases.py:370-397 | reply and committed database are those of the atomic `Spec.CancelOrder`; `OrderAnswers.CancelAnswers` and `CancelLeaves` say which they are |
| `OrderUseCases.Pay` | frameworks/shared/aio/orders_usecases.py:527-548 | a payment for the whole invoice and the invoice marked, or nothing at all for an unknown word or a missing invoice |
| `OrderUseCases.Bill` | frameworks/shared/aio/orders_usecases.py:495-504 | one unpaid invoice for the order's money, and the order INVOICED and pointing at it |
| `OrderUseCases.RewindAndRelease` | frameworks/shared/aio/orders_usecases.py:512-522 | after a decline the tables hold the bill and the released units and nothing of the payment |
| `OrderUseCases.ShippedInSteps` | frameworks/shared/aio/orders_usecases.py:495-510 | billing, paying, shipping and closing in turn come to the state the specification names at once |
| `OrderUseCases.Settle` | frameworks/shared/aio/orders_usecases.py:443-524 | reply and committed database are those of the atomic `Spec.Settle`, through the savepoint, the rewind and the rows read again; `OrderAnswers.SettleAnswers` and `SettleLeaves` say which they are |
| `OrderUseCases.SumOfLines` | frameworks/shared/aio/orders_usecases.py:155-164 | the loop over the rows is the money of the lines, in whatever order they come |
| `OrderUseCases.Retotal` | frameworks/shared/aio/orders_usecases.py:155-164 | the order's total becomes the money of the lines the transaction now sees |
| `OrderUseCases.SetLine` | frameworks/shared/aio/orders_usecases.py:315-348 | reply and committed database are those of the atomic `Spec.SetLine`; `OrderAnswers.SetLineAnswers` and `SetLineLeaves` say which they are |
| `OrderUseCases.RemoveLine` | frameworks/shared/aio/orders_usecases.py:351-367 | reply and committed database are those of the atomic `Spec.RemoveLine`; `OrderAnswers.RemoveLineAnswers` and `RemoveLineLeaves` say which they are |
| `OrderUseCases.DistinctByCount` | frameworks/shared/aio/orders_usecases.py:271-272 | comparing the two counts is asking whether a SKU is named twice |
| `OrderUseCases.PlaceOrder` | frameworks/shared/aio/orders_usecases.py:254-312 | reply and committed database are those of the atomic `Spec.PlaceOrder`: the refusals in their order, then one order and its priced lines; `OrderAnswers.PlaceOrderAnswers` and `PlaceOrderLeaves` say which they are |
| `OrderUseCases.AttachInvoice` | frameworks/shared/aio/orders_usecases.py:551-572 | reply and committed database are those of the atomic `Spec.AttachInvoice` |
| `OrderUseCases.RemoveOrder` | frameworks/shared/aio/orders_usecases.py:575-589 | reply and committed database are those of the atomic `Spec.RemoveOrder` |
| `InventoryUseCases.MoveStock` | frameworks/shared/services/inventory_services.py:136-160 | the level moves by the delta and one movement says so, both or neither |
| `InventoryUseCases.StockToReceiveInto` | frameworks/shared/aio/inventory_usecases.py:275-289 | the pair has a row afterwards, at its old levels or at zero, already committed |
| `InventoryUseCases.Receive` | frameworks/shared/aio/inventory_usecases.py:260-303 | through its two commits, reply and database are those of the atomic `Spec.Receive` |
| `InventoryUseCases.Ship` | frameworks/shared/aio/inventory_usecases.py:306-334 | reply and committed database are those of the atomic `Spec.Ship` |
| `InventoryUseCases.UpdateStock` | frameworks/shared/aio/inventory_usecases.py:138-156 | reply and committed database are those of the atomic `Spec.UpdateStock` |
| `InventoryUseCases.RemoveStock` | frameworks/shared/aio/inventory_usecases.py:159-170 | reply and committed database are those of the atomic `Spec.RemoveStock` |
| `InventoryUseCases.CountStock` | frameworks/shared/aio/inventory_usecases.py:337-355 | reply and committed database are those of the atomic `Spec.CountStock` |
| `InventoryUseCases.ReserveWarehouse` | frameworks/shared/aio/inventory_usecases.py:358-369 | reply and committed database are those of the atomic `Spec.ReserveWarehouse` |
| `BillingUseCases.Subscribe` | frameworks/shared/aio/billing_usecases.py:87-93 | reply and committed database are those of the atomic `Spec.Subscribe` |
| `BillingUseCases.CancelSubscription` | frameworks/shared/aio/billing_usecases.py:96-106 | reply and committed database are those of the atomic `Spec.CancelSubscription` |
| `BillingUseCases.IssueInvoice` | frameworks/shared/aio/billing_usecases.py:109-121 | reply and committed database are those of the atomic `Spec.IssueInvoice` |
| `BillingUseCases.PayInvoice` | frameworks/shared/aio/billing_usecases.py:124-150 | reply and committed database are those of the atomic `Spec.PayInvoice` |
| `Shop.PerformAll` | src/snakeorm/session/asyncsession.py:134-144 | any sequence of calls: every reply is the specification's at that point of its run, the session ends where the run ends, on ids handed out in order, and from an empty database the books are right there |
| `Integrity.OnlyTheTargetChanges` | frameworks/shared/aio/orders_usecases.py:254-589 | an order operation changes no order and no line but its own order's |
| `Integrity.MoveKeeps` | frameworks/shared/models/inventory_models.py:271-275 | a move that passes the `CHECK`s leaves the same pairs and no negative level |
| `Integrity.ConstraintsHold` | frameworks/shared/models/orders_models.py:170-177 | no operation leaves a reference to a row that is not there, in any table, a line without units, a negative level, or an order reference used twice |
| `Integrity.StaysUsable` | src/snakeorm/session/asyncsession.py:332-355 | after any operation the constraints hold and the sequence is ahead of every id |
| `Spec.LineKeysListTheLines` | frameworks/shared/selectors/orders_selectors.py:192-202 | the lines of an order, each once, ascending |
| `Spec.Sales` | frameworks/shared/aio/orders_usecases.py:508-509 | one sale a line, each taking what the line asks, in the order of the lines |
| `Spec.ItemLines` | frameworks/shared/aio/orders_usecases.py:300-311 | one line for each SKU named, at the price of the SKU, for a quantity that was asked |
| `Holds.SlackOfReserve` | frameworks/shared/aio/orders_usecases.py:400-440 | reserving adds to `reserved` what the order now holds, for every pair |
| `Holds.SlackOfCancel` | frameworks/shared/aio/orders_usecases.py:386-396 | cancelling takes from `reserved` what the order held, for every pair that has a row |
| `Holds.SlackOfSettle` | frameworks/shared/aio/orders_usecases.py:443-524 | settling, shipped or declined, takes from `reserved` what the order held, for every pair |
| `Holds.HoldsAreConservedExactly` | frameworks/shared/aio/orders_usecases.py:118-143 | every operation keeps, for every pair, `reserved` minus what the RESERVED orders ask, if and only if it is not one of the calls named in `BreaksHolds`, each readable off the database before the call |
| `Holds.RemovalStripsTheHold` | frameworks/shared/aio/inventory_usecases.py:159-170 | `remove_stock` takes a row with its promises: an order that held its units holds none |
| `Holds.CancellingRepairs` | frameworks/shared/aio/orders_usecases.py:386-396 | where cancelling moves the difference, units were asked for that no row promised, and fewer are afterwards |
| `Holds.AttachingLosesTheHold` | frameworks/shared/aio/orders_usecases.py:551-572 | billing a RESERVED order of two units by hand leaves two units promised to nobody |
| `Runs.RunConservesHolds` | frameworks/shared/aio/orders_usecases.py:118-143 | that difference is constant over any run without such a call |
| `Runs.RunKeepsHoldsOwned` | frameworks/shared/aio/orders_usecases.py:386-396 | from books where every hold has its order, every run outside line edits and billing by hand on RESERVED orders and level overwrites keeps it so |
| `Runs.HeldOrdersAreCovered` | frameworks/shared/aio/orders_usecases.py:386-396 | where every hold has its order, a RESERVED order's rows are there and hold at least what it asks |
| `OrderAnswers.PlaceOrderAnswers` | frameworks/shared/aio/orders_usecases.py:267-287 | each answer of `place_order` if and only if its condition on the tables, in the order of the code: what was asked, what is there, the reference, the engine; all but Done change nothing |
| `OrderAnswers.PlaceOrderLeaves` | frameworks/shared/aio/orders_usecases.py:289-312 | Done leaves one order more, in DRAFT and unbilled, for the reference, customer and warehouse given, at the sum of quantity times price over the items, with exactly one line an item, of its quantity at its SKU's price; every other row is as it was |
| `OrderAnswers.SetLineAnswers` | frameworks/shared/aio/orders_usecases.py:323-332 | each answer of `set_line` if and only if its condition; all but Done change nothing |
| `OrderAnswers.SetLineLeaves` | frameworks/shared/aio/orders_usecases.py:334-346 | Done leaves the line at the quantity given and the SKU's price, the total the sum of the lines, and every other line, column and table as it was, in DRAFT and in RESERVED alike |
| `OrderAnswers.RemoveLineAnswers` | frameworks/shared/aio/orders_usecases.py:355-362 | each answer of `remove_line` if and only if its condition; all but Done change nothing |
| `OrderAnswers.RemoveLineLeaves` | frameworks/shared/aio/orders_usecases.py:364-367 | Done leaves the order without the line, the total the sum of the lines, and everything else as it was |
| `OrderAnswers.ReserveAnswers` | frameworks/shared/aio/orders_usecases.py:415-434 | NotFound if and only if there is no such order; Done if and only if it is a DRAFT with lines and each line's pair has a row with that many units free; Conflict otherwise, and never an exception |
| `OrderAnswers.ReserveLeaves` | frameworks/shared/aio/orders_usecases.py:436-440 | Done leaves the order RESERVED, each of its pairs promising the line's units more, and every other column, row and table as it was |
| `OrderAnswers.CancelAnswers` | frameworks/shared/aio/orders_usecases.py:378-394 | each answer of `cancel_order` if and only if its condition; Done if and only if the order is open and, if RESERVED, has lines whose rows promise what they ask |
| `OrderAnswers.CancelLeaves` | frameworks/shared/aio/orders_usecases.py:386-397 | Done leaves the order CANCELLED; from RESERVED each of its stocked pairs promises the line's units less, from DRAFT no stock row moves; everything else is as it was |
| `OrderAnswers.SettleAnswers` | frameworks/shared/aio/orders_usecases.py:471-523 | each of the five answers of `settle` if and only if its condition on the tables and the charge: PaymentDeclined exactly for a declining charge on an order that can be billed and released, Done exactly for an accepting one on an order that can be billed and shipped |
| `OrderAnswers.SettleLeaves` | frameworks/shared/aio/orders_usecases.py:495-524 | Done leaves it shipped and paid, PaymentDeclined billed and released, every other answer nothing changed |
| `OrderAnswers.AttachInvoiceAnswers` | frameworks/shared/aio/orders_usecases.py:561-572 | each answer of `attach_invoice` if and only if its condition; Done leaves the order INVOICED on that invoice and nothing else changed |
| `OrderAnswers.RemoveOrderAnswers` | frameworks/shared/aio/orders_usecases.py:582-589 | each answer of `remove_order` if and only if its condition; Done leaves the order gone and every other row as it was |
| `ShelfAnswers.ReceiveAnswers` | frameworks/shared/aio/inventory_usecases.py:268-303 | each answer of `receive` if and only if its condition; Done leaves the shelf up by exactly the units, one purchase of exactly the units, and everything else as it was |
| `ShelfAnswers.ShipAnswers` | frameworks/shared/aio/inventory_usecases.py:315-334 | each answer of `ship` if and only if its condition; Done leaves the shelf down by exactly the units, one sale of them, the promises as they were |
| `ShelfAnswers.UpdateStockAnswers` | frameworks/shared/aio/inventory_usecases.py:147-156 | each answer of `update_stock` if and only if its condition; Done leaves both levels as given, without a movement |
| `ShelfAnswers.RemoveStockAnswers` | frameworks/shared/aio/inventory_usecases.py:163-170 | each answer of `remove_stock` if and only if its condition; Done leaves the pair without its row and every other row as it was |
| `ShelfAnswers.CountStockAnswers` | frameworks/shared/aio/inventory_usecases.py:341-355 | each answer of `count_stock` if and only if its condition; Done leaves the shelf as counted and the promises as they were |
| `ShelfAnswers.ReserveWarehouseAnswers` | frameworks/shared/aio/inventory_usecases.py:362-369 | each answer of the bulk reservation if and only if its condition; Done leaves every pair of the warehouse promising the units more, and no other |
| `ShelfAnswers.SubscribeAnswers` | frameworks/shared/aio/billing_usecases.py:87-93 | each answer of `subscribe` if and only if its condition; Done leaves one active subscription more, of that user to that plan |
| `ShelfAnswers.CancelSubscriptionAnswers` | frameworks/shared/aio/billing_usecases.py:100-106 | each answer of `cancel_subscription` if and only if its condition; Done leaves it inactive, with its user and plan |
| `ShelfAnswers.IssueInvoiceAnswers` | frameworks/shared/aio/billing_usecases.py:113-121 | each answer of `issue_invoice` if and only if its condition; Done leaves one unpaid invoice more, for that amount |
| `ShelfAnswers.PayInvoiceAnswers` | frameworks/shared/aio/billing_usecases.py:133-150 | each answer of `pay_invoice` if and only if its condition, the word before the invoice; Done leaves one payment more, of that kind and the invoice's amount, and the invoice paid |
| `Settlement.ShippedIsShippedAndPaid` | frameworks/shared/aio/orders_usecases.py:495-510 | a settled order, row by row: one invoice for its money, paid in full for a known word, both levels of every line's pair down by the line, one sale a line, every other row as it was |
| `Settlement.DeclinedIsBilledAndReleased` | frameworks/shared/aio/orders_usecases.py:512-523 | a declined one: one unpaid invoice, INVOICED, the hold given back, no payment, no movement, every other row as it was |
| `Settlement.SettleHasThreeOutcomes` | frameworks/shared/aio/orders_usecases.py:443-524 | `settle` does one of the two or nothing at all, and the reply says which |
| `Runs.SettleRaisesExactly` | frameworks/shared/aio/orders_usecases.py:486-523 | from owned holds on a covered shelf it fails in the engine if and only if the charge broke or the order has no lines |
| `Runs.CancelRaisesExactly` | frameworks/shared/aio/orders_usecases.py:386-397 | from owned holds, cancelling fails in the engine if and only if the order is RESERVED and has no lines |
| `Runs.LastLineOffStrandsTheOrder` | src/snakeorm/sql/condition.py:142-144 | taking the last line off a RESERVED order leaves its units promised and an order that can be neither cancelled nor settled |
| `Audit.NetOfSales` | frameworks/shared/services/inventory_services.py:191-215 | the sales of an order take from each pair its line's quantity, once |
| `Audit.DriftOfSettle` | frameworks/shared/aio/orders_usecases.py:443-524 | shipped, declined and rewound, or refused: what is on the shelf minus what the movements say does not move |
| `Audit.AuditIsConservedExactly` | frameworks/shared/services/inventory_services.py:136-160 | every operation keeps that difference for every pair if and only if it is not a correction that sets another level |
| `Runs.RunConservesAudit` | frameworks/shared/aio/inventory_usecases.py:260-334 | it is constant over any run without such a correction, rewound settlements included |
| `Oversell.OversellsExactly` | frameworks/shared/aio/orders_usecases.py:428-437 | from a covered shelf, an operation leaves `0 <= reserved <= on_hand` for every pair if and only if it is not one of the calls named in `Oversells` |
| `Oversell.ShipIgnoresPromises` | frameworks/shared/aio/inventory_usecases.py:317-322 | a shelf of five with four promised ships three |
| `Runs.RunNeverOversells` | frameworks/shared/aio/orders_usecases.py:400-440 | a run without such a call keeps every promise on the shelf |
| `Rows.TotalWith` | frameworks/shared/aio/orders_usecases.py:164 | one more line adds its price times its quantity to the total |
| `Ledger.MoneyStaysDerived` | frameworks/shared/aio/orders_usecases.py:155-164 | after every operation each total is the money of the order's lines, and `invoice_id` is null exactly in DRAFT, RESERVED and CANCELLED |
| `Ledger.ClosedOrdersAreFrozen` | frameworks/shared/aio/orders_usecases.py:328-346 | no operation writes a billed or cancelled order or its lines; it can only be deleted, and only when it has no lines |
| `Ledger.InvoicesAreFrozen` | frameworks/shared/aio/billing_usecases.py:124-150 | an issued invoice keeps its amount and its subscription, and what is paid stays paid |
| `Ledger.OwnersAreFrozen` | frameworks/shared/aio/billing_usecases.py:96-106 | a subscription keeps its user |
| `Ledger.PaymentsStayMatched` | frameworks/shared/services/billing_services.py:70-99 | after every operation an invoice is paid exactly when a payment names it, and every payment is for its invoice's amount |
| `Ledger.SettledStaysOwn` | frameworks/shared/aio/orders_usecases.py:482-487 | every SETTLED order's invoice is raised against a subscription of its own customer |
| `Ledger.BooksStayRight` | frameworks/shared/aio/orders_usecases.py:485-548 | the four together are kept by every operation |
| `Ledger.SettledIsPaidExactly` | frameworks/shared/aio/orders_usecases.py:535-541 | every SETTLED order stays paid for, if and only if the operation is not a settlement that goes through in a word that is no payment kind |
| `Ledger.ChequesSettleUnpaid` | frameworks/shared/aio/orders_usecases.py:535-541 | a settlement in the word `cheque` ends SETTLED with its invoice unpaid and no payment |
| `Runs.BooksFromScratch` | frameworks/shared/aio/billing_usecases.py:124-150 | from an empty database, after any calls in any order, the books are right |
| `Runs.SettledOrdersArePaidFromScratch` | frameworks/shared/aio/orders_usecases.py:485-548 | from an empty database, with known words only, every SETTLED order has a paid invoice of its own customer's |
| `Runs.RunFreezesTheBill` | frameworks/shared/aio/orders_usecases.py:328-346 | a billed order with its lines, and an invoice's amount, are the same after any run |
| `Runs.SettledInvoiceIsTheLineSum` | frameworks/shared/aio/orders_usecases.py:495-504 | the invoice `settle` issues is its order's line sum in cents in every later state, accepted or declined |
| `Runs.RunStaysConsistent` | frameworks/shared/models/inventory_models.py:271-275 | the constraints hold after any run |
| `Transactions.FinishReadsLoadedRows` | frameworks/shared/aio/orders_usecases.py:94-110 | a transaction's statements depend on the stock table only through the rows it loaded |
| `Transactions.MovesRun` | frameworks/shared/aio/orders_usecases.py:436-437 | the statements of a loop over lines move every stocked line's row, or raise exactly when one would break a `CHECK`, whatever follows them |
| `Transactions.InvoicingRuns` | frameworks/shared/aio/orders_usecases.py:495-507 | up to the charge the overlay gains the bill and the payment, and the instances of the stock rows are as they were read |
| `Transactions.RewindRuns` | frameworks/shared/aio/orders_usecases.py:511-519 | after the rewind the overlay is the bill and the rows read again are the rows read under the lock |
| `Transactions.PlanMeets` | frameworks/shared/aio/orders_usecases.py:370-524 | run to the end on rows that agree with the table, an operation's statements come to what the specification does at once, or raise exactly when it does |
| `Interleaving.OthersKeepWhatTheySaw` | frameworks/shared/selectors/inventory_selectors.py:262-273 | a commit that writes one order and the rows locked for it leaves every other transaction's reads true |
| `Interleaving.CommitIsIsolated` | frameworks/shared/aio/orders_usecases.py:370-524 | the commits of the three operations are of that kind |
| `Interleaving.TakeRowKeeps` | frameworks/shared/selectors/inventory_selectors.py:184-195 | taking the next row in order keeps rows exclusive, copies current and the order ascending |
| `Interleaving.ExecUnderLocks` | frameworks/shared/selectors/inventory_selectors.py:246-249 | a statement does under its locks what it would have done alone |
| `Interleaving.CommitKeeps` | frameworks/shared/aio/orders_usecases.py:438-440 | a commit does to the shared database exactly the atomic operation, and keeps everything the others rely on |
| `Interleaving.PlayKeeps` | frameworks/shared/aio/orders_usecases.py:370-524 | every reachable state of every schedule: what each transaction saw still holds, no row is held twice, ids are apart, and the log replays to the database |
| `Concurrency.Serializable` | frameworks/shared/aio/orders_usecases.py:370-524 | any interleaving commits the database of the calls made one after another in the order they ended, each with the answer it would have had there |
| `Concurrency.NoLostUpdate` | frameworks/shared/aio/orders_usecases.py:94-110 | from its lock to its end a transaction's copy of a row is the committed row, and nobody else holds it |
| `Concurrency.NoOversell` | frameworks/shared/aio/orders_usecases.py:414-440 | from owned holds on a covered shelf, every committed state of every interleaving has both, and every constraint |
| `Concurrency.NoInvoiceIsOverwritten` | frameworks/shared/aio/orders_usecases.py:495-502 | with commits out of the order the ids were drawn in, no commit writes over an invoice |
| `Concurrency.StaleReserveHoldsTwice` | frameworks/shared/aio/orders_usecases.py:414-440 | a reservation that read its order before another reserved it holds every line a second time |
| `TwoReserves.SixSteps` | frameworks/shared/aio/orders_usecases.py:414-440 | once a call has read the order, six steps alone reserve on what the stock row now says and the order's row said then |
| `TwoReserves.TwoReservesHoldTwice` | frameworks/shared/aio/orders_usecases.py:414-440 | a schedule that reaches it, from a shop in order: two calls begun together both answer Done and four units are promised to an order of two: why one call an order is assumed |
| `Concurrency.WaitingClimbs` | frameworks/shared/selectors/inventory_selectors.py:184-195 | a transaction waits only for one that is further along the order of the keys |
| `Concurrency.NoDeadlock` | frameworks/shared/selectors/inventory_selectors.py:184-195 | the waits-for relation has no cycle in any reachable state |
| `Concurrency.SomeoneCanGo` | frameworks/shared/selectors/inventory_selectors.py:211-213 | while anything is in flight, something in flight is not waiting |
| `Progress.AdvanceLessens` | frameworks/shared/aio/orders_usecases.py:370-524 | every step of a transaction that is not waiting brings the whole closer to its end |
| `Progress.EverythingCanFinish` | frameworks/shared/selectors/inventory_selectors.py:184-195 | from every reachable state everything in flight can run to its end, with nothing aborted |
| `Progress.EveryCallIsAccountedFor` | frameworks/shared/aio/orders_usecases.py:370-524 | each call, as often as it was let in, is in flight or in the log: none is lost, none ends twice, none is answered that was not made |
| `Progress.EveryCallIsAnswered` | frameworks/shared/aio/orders_usecases.py:370-524 | whatever was let in can be brought to an end in which every call has answered, as often as it was made, as in a serial run |
| `Taxonomy.WalkIsReachability` | src/snakeorm/query/recursive.py:169-184 | the distinct recursion ends on every table, cycles included, and brings exactly the tags that can be reached along the hop |
| `Taxonomy.AncestryIsTheConverse` | frameworks/shared/selectors/taxonomy_selectors.py:122-162 | swapping the pair of columns gives the converse relation |
| `Taxonomy.HopsAreParentLinks` | frameworks/shared/selectors/taxonomy_selectors.py:122-162 | the subtree holds the tags that name this one as their parent, the ancestry the tag it names, and without cycles not the other way about |
| `Taxonomy.LimitCutsExactly` | frameworks/shared/selectors/taxonomy_selectors.py:18-21 | the bound of the result leaves rows out if and only if the walk is longer than it |
| `Taxonomy.OrderAncestry` | frameworks/shared/selectors/taxonomy_selectors.py:175-197 | ends on every input, with the duplicate-free chain of parents down to the tag that has nowhere new to go from its first |
| `Taxonomy.BreadcrumbIsUnique` | frameworks/shared/selectors/taxonomy_selectors.py:191-197 | there is only one such chain |
| `Taxonomy.BreadcrumbIgnoresRowOrder` | frameworks/shared/selectors/taxonomy_selectors.py:178-183 | two orders of the same rows give the same chain |
| `Taxonomy.BreadcrumbIsTheAncestryExactly` | frameworks/shared/selectors/taxonomy_selectors.py:193-196 | the chain holds the whole ancestry, on cycles too, if and only if no tag above has id zero |
| `Taxonomy.ZeroIsLeftOut` | frameworks/shared/selectors/taxonomy_selectors.py:196 | the child of a tag with id zero, whose breadcrumb is itself alone |
| `Taxonomy.SubtreeShowsTheTag` | frameworks/shared/selectors/taxonomy_selectors.py:145-197 | a tag is in the breadcrumb of every tag of its subtree that has no id zero above it |
| `Taxonomy.AcyclicStartsAtTheRoot` | frameworks/shared/selectors/taxonomy_selectors.py:189-191 | with no cycle, and no id zero above, the chain starts at a root |
| `Seeder.ForestIsAcyclic` | frameworks/shared/data/factory.py:124-127 | no cycle of parents, if and only if every part of the names has one whose parent is outside it |
| `Seeder.DepthIsUnique` | frameworks/shared/data/factory.py:484-487 | the depths the waves are numbered by are determined |
| `Seeder.SomeoneIsReady` | frameworks/shared/data/factory.py:499-506 | on a forest no round of the loop comes up empty |
| `Seeder.ACycleIsNeverReady` | frameworks/shared/data/factory.py:499-506 | on anything else some names are never ready, whatever has been inserted |
| `Seeder.LoopEndsExactly` | frameworks/shared/data/factory.py:499-520 | some round leaves nothing pending, if and only if the parents make a forest: on a cycle the loop goes round for ever |
| `Seeder.InsertWave` | frameworks/shared/data/factory.py:507-517 | one batch goes in against the ids of the waves before it |
| `Seeder.SeedTags` | frameworks/shared/data/factory.py:488-520 | ends on every forest, after the rounds of the loop; every tag drawn goes in exactly once, pointing at the earlier row of its parent, a root if that was not drawn; the batches are, in order, all the rows of each depth |
| `Folds.SortIsStable` | frameworks/shared/selectors/orders_selectors.py:613 | sorted largest first, nothing lost, and equals left in the order they were in |
| `Folds.OneSuchList` | frameworks/shared/selectors/orders_selectors.py:610-614 | a list is known by its order and by what it holds at each key |
| `Folds.FoldBookIsUnionAll` | frameworks/shared/selectors/inventory_selectors.py:924-931 | the fold is one of the answers of `UNION ALL ... ORDER BY happened_at DESC`, every duplicate kept, the shop's lines first within an instant |
| `Folds.FoldBookIsLatestFirst` | frameworks/shared/selectors/inventory_selectors.py:931 | the book is read from the latest line down |
| `Folds.FoldBookIsTheOnly` | frameworks/shared/selectors/inventory_selectors.py:909-931 | and the only list that is so |
| `Folds.FoldHighlights` | frameworks/shared/selectors/orders_selectors.py:596-614 | one row of each order in either branch, latest first, and of an order read in two versions the newest branch's |
| `Folds.FoldIsNewestFirst` | frameworks/shared/selectors/orders_selectors.py:613 | the highlights are read from the order placed last, and of two placed at once from the larger id |
| `Folds.FoldIsOneList` | frameworks/shared/selectors/orders_selectors.py:596-614 | the two branches settle what is returned |
| `Folds.FoldIsTheUnionExactly` | frameworks/shared/selectors/orders_selectors.py:596-614 | that is an answer of the deduplicating `UNION` if and only if no order was read in two versions |
| `Folds.UnionIsOneList` | frameworks/shared/selectors/orders_selectors.py:585-593 | the `UNION` under its total order is one list, whichever branch comes first |
| `Folds.HighlightsAreTheCompound` | frameworks/shared/selectors/orders_selectors.py:535-614 | over one table the fold of the two bounded branches, taken either way round, is the compound's list |
| `Pager.PagesBounds` | frameworks/shared/aio/orders_usecases.py:193 | at least one page, enough of them, and none too many |
| `Pager.PagesCoverTheListing` | frameworks/shared/aio/orders_usecases.py:189-202 | pages one to the last are the listing, in order, for every page size, zero and negatives included |
| `Pager.ClampedPageHasRows` | frameworks/shared/aio/inventory_usecases.py:98-108 | whatever page is asked for, a page that exists is shown, the first for what is below it and the last for what is beyond; it tells the true total and number of pages; it is empty only if the listing is, and only the last can be short |
| `Pager.EachRowIsOnOnePage` | frameworks/shared/aio/billing_usecases.py:166-175 | each row is shown at one place of one page and nowhere else |
| `Advisor.IndexedColumns` | src/snakeorm/advisor.py:31-37 | exactly the columns of the primary key, the unique ones, and those of a declared index |
| `Advisor.FirstSeenKeepsAll` | src/snakeorm/advisor.py:42-43 | each hint once, and none missing |
| `Advisor.FirstSeenKeepsOrder` | src/snakeorm/advisor.py:41 | what appeared first comes first |
| `Advisor.UnindexedForeignKeys` | src/snakeorm/advisor.py:40-54 | the nested loops give the candidates of the schema, each once, in order of appearance |
| `Advisor.AuditIsExact` | src/snakeorm/advisor.py:40-54 | a column is named if and only if it is a local column of some to-one relationship and has no index |
| `Advisor.IndexHintsFromSql` | src/snakeorm/advisor.py:57-83 | the nested loops give the filtered candidates of the queries, each once, in order of appearance |
| `Advisor.ByNameIsTheLast` | src/snakeorm/advisor.py:66 | of the tables of one name the last is the one that is asked |
| `Advisor.HintsAreExact` | src/snakeorm/advisor.py:57-83 | a column is suggested if and only if a query filters it, it exists, and it has no index |
| `Advisor.IndexHintsFromRecords` | src/snakeorm/advisor.py:86-109 | the output is exactly the columns with their durations, one entry a column, slowest first, the equally slow in the order they first came up in |
| `Advisor.WorstIsTheWorst` | src/snakeorm/advisor.py:98-104 | a column is reported if and only if some slow query filters it, with a duration that none of them exceeds and that one of them has or that is zero |
| `Advisor.WorstIsAttainedExactly` | src/snakeorm/advisor.py:98-104 | the duration reported is the slowest measured, if and only if some slow query on the column has a duration that is not negative |
| `Advisor.WorstIsMeasured` | src/snakeorm/advisor.py:22-24 | under a threshold that is not negative it always is |
| `Advisor.NegativeWorstIsZero` | src/snakeorm/advisor.py:104 | one query of duration minus one under a threshold of minus one is reported with zero |
| `Advisor.HigherThresholdKeepsAPart` | src/snakeorm/advisor.py:86-104 | raising the threshold keeps a part of the hints, with the same durations |
| `Cookies.ProxyReq` | frameworks/react_front/vite.config.ts:64-72 | the forwarded header is this backend's own, none if it has no cookie, and untouched if the browser sent none |
| `Cookies.ShownReadsBack` | frameworks/react_front/vite.config.ts:42-51 | a printed pair parses as itself |
| `Cookies.ParseOfPrint` | frameworks/react_front/vite.config.ts:42-51 | printing a header and parsing it gives the pairs back, in order |
| `Cookies.StandardPairsAreOk` | frameworks/react_front/vite.config.ts:42-51 | every pair that section 4.1.1 of RFC 6265 allows is one of those |
| `Cookies.JarRoundTrip` | frameworks/react_front/vite.config.ts:64-72 | of what is stored for it the backend reads exactly the pairs, in order, whatever else the header holds |
| `Cookies.PrefixesApart` | frameworks/react_front/vite.config.ts:37-39 | no cookie of one letters-only backend passes for another's |
| `Cookies.OthersAreForeign` | frameworks/react_front/vite.config.ts:28-32 | another backend's stored cookies are among what the round trip may meet |
| `Cookies.LettersAreNeeded` | frameworks/react_front/vite.config.ts:37 | with an underscore in an id one jar opens onto another |
| `SetCookies.ProxyRes` | frameworks/react_front/vite.config.ts:76-92 | every `Set-Cookie` is renamed, one for one, in place |
| `SetCookies.RenamedParts` | frameworks/react_front/vite.config.ts:80-91 | a renamed cookie splits into the stored pair of the jar, this backend's path, and what was kept |
| `SetCookies.ScopedExactly` | frameworks/react_front/vite.config.ts:85-91 | a user agent sees one path, the backend's, and no domain, if and only if the server wrote neither with blanks before its `=`; every other attribute goes through without the white space around it |
| `SetCookies.WithoutASignNothingIsRenamed` | frameworks/react_front/vite.config.ts:81-82 | a header that sets no pair is passed on as it came |
| `SetCookies.TrimIsExact` | frameworks/react_front/vite.config.ts:85 | `trim` takes off white space, at the two ends, and all of it |
| `SetCookies.ABlankBeforeTheSign` | frameworks/react_front/vite.config.ts:88 | `Path =/` is such a cookie's attribute |
| `SetCookies.StandardPairsAreTidy` | frameworks/react_front/vite.config.ts:42-51 | every pair that section 4.1.1 of RFC 6265 allows survives the user agent's reading too |
| `SetCookies.StoredUnderThePrefix` | frameworks/react_front/vite.config.ts:80-91 | what the user agent stores of a renamed cookie is the server's pair, its name under the prefix |
| `SetCookies.CookiesComeBack` | frameworks/react_front/vite.config.ts:64-92 | renamed on the way in, stored and sent among anybody's cookies, filtered and stripped on the way out: the backend reads exactly the pairs it set, in order |
| `SessionNames.MarksAgree` | frameworks/shared/session.py:38-54 | a marked name comes apart in one way, whatever its base |
| `SessionNames.SessionOfReadsTheMark` | frameworks/shared/session.py:76-85 | a name answers a session if and only if it is a plain base, the mark and that valid id |
| `SessionNames.SessionOfInvertsScopedExactly` | frameworks/shared/session.py:76-126 | reading back what was marked gives the session if and only if the name is not empty and has no line break |
| `SessionNames.ScopedIsIdempotentExactly` | frameworks/shared/session.py:88-126 | marking again changes nothing on exactly the same names |
| `SessionNames.ScopedAnswers` | frameworks/shared/session.py:113-126 | every answer and when it comes: no session, no mark; a bad id named back; the run's own mark left alone; another's refused and named; any other name marked |
| `SessionNames.TheEmptyNameIsMarkedTwice` | frameworks/shared/session.py:114-126 | the empty name is marked, and the marked name is marked again |
| `SessionNames.ScopedIsInjective` | frameworks/shared/session.py:88-126 | two unmarked names never meet, whatever the two sessions |
| `SessionNames.ScopedRefusesExactly` | frameworks/shared/session.py:113-126 | it refuses if and only if the id is not valid or the name carries the mark of another session |

## Left out

- Interleaving.Advance: a refusal and the rollback after it are one step, and so are reading the lines and opening the locking read; no other transaction can change the lines in between.
- Interleaving.Do: an engine without row locks (SQLite) is not modelled there; its writers hold the whole file.
- Concurrency.Serializable: `receive`, `ship`, `count_stock`, `update_stock` and the line edits take no lock and run one at a time here, as do two calls on one order.
- Progress.EverythingCanFinish: that a schedule exists which finishes everything; fairness of the scheduler is not modelled.
- SetCookies.LowerChar: lower case of ASCII letters only; no other character lowers to a letter of `path` or `domain`.
- Pager.Paginate: the listing is a sequence; that its `ORDER BY` is total is part of the queries, not of the pager.
- Advisor.IndexHintsFromSql: what the two patterns find in a text is an input; the regular expressions are not modelled.
- Seeder.SeedTags: ids are handed out consecutively; the text of names and the random draw of groups are inputs.
- Users, plans, warehouses and SKUs are fixed sets: the calls that create them insert a row and commit.
- Clocks, notes and the columns of the kinds of payment: no operation decides anything by them.
- Declared limits of columns (lengths, `Decimal` precision, integer widths) are not modelled; Python's integers are unbounded.
- `place_order` under a concurrent caller: the uniqueness of the reference is checked by reading, and a race there is not modelled.
- SQL text, dialects, drivers, the linker and migrations: only the meaning of a query is modelled.
- The synchronous twin, which has the same use cases, and the connection pool.
- Reports, window functions, streams, templates, DTOs and navigation: expressions over results, with nothing to keep.
- `posts_with_every_tag`: an intersection of the branches, one lemma long.
- Password hashing, environment variables, time zones and benchmarks.
