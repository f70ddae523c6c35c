# Verified model of the inventory backend

This project models the stock-keeping core of the backend and proves properties of it with the Dafny
verifier: the inventory engine, the four document workflows that drive it (purchase orders, goods
received notes, stock adjustments, stock releases), the WebSocket connection manager with its
multi-worker delivery, and the numbering, slug, pricing, report and refresh-token logic around them.

`dafny verify dfyconfig.toml` checks everything.

## How the model is built

- **State and steps.** `Tables.State` holds the tables. Each service call is a function from a state
  to a new state or an error (`Adjustments`, `Releases`, `Procurement`), `System.Exec` is one request
  (commit, or roll back as `get_db` does), and `System.Run` is any sequence of requests from the empty
  database. The main results quantify over every `Run`, or over every state of an invariant that every
  `Run` has. `Requests` and `History` say what those functions do without naming them: which requests are
  accepted, what each writes, and which requests of the run a status and a document's contents go back to.
  `System.Done` says that a request of some kind was accepted in a run (`System.DoneIff` with its moment).
- **Services.** `Database.Db` has the tables as fields. Its methods change them step by step, with the
  loops of the source and an explicit rollback, and each is proved to give exactly the state or error of
  its function. `Db.ServeAll` ties them together: serving a list of requests ends in the state of the
  state machine. `Connections.ConnectionManager` and `Tokens.TokenService` do the same for connections
  (`HandleAll`) and refresh tokens (`ServeAll`), `Pricing.PurchaseOrderTotals` and
  `Consumption.Aggregate` for order totals and the report.
- **Numbers.** Quantities, prices and costs are integers that count units of the fourth decimal
  (`Numeric(12, 4)`), percentages count hundredths. Products of them are exact integers, and `round()`
  is `Rounding.Round`, half to even on exact rationals. On stored quantities `round(before + change, 4)`
  is the identity (`Rounding.RoundOnGrid`) and the `1e-6` tolerances decide nothing
  (`ReceivingRuns.TolerancesAreExact`, `Rounding.ToleranceIsLostInStorage`).
- **Keys.** A document's id is its position in its table, since rows are only appended. Order lines get
  new ids whenever the items of an order are replaced; `LineKey.edition` counts the replacements.
- **Time and ties.** Rows a transaction adds to the procurement ledger share the transaction's `now()`,
  and `ORDER BY created_at DESC LIMIT 1` may return any of the tied rows. Approval of a note takes the
  rows the database picked as an argument, and the theorems hold for every choice.
- **Concurrency.** Requests are atomic and serialized. WebSocket sends and delivery are not: the send loops
  of `Connections` let other tasks call the manager at every await, and `Delivery` interleaves
  single sends, connects, disconnects, publishes and bus hand-overs of all workers freely, including
  more interleavings than the sequential subscriber loop of a worker allows.

## Promises that do not hold as stated

- *Received never exceeds ordered.* Approval of a note does not look at the remaining quantity again.
  `Limits.OverReceiptIsReachable` is a run that receives 20 on an order of 10;
  `ReceivingRuns.ApprovalOverReceivesIff` says exactly which approvals do it, and
  `ReceivingRuns.NoOverReceiptInSerialRuns` proves the promise when each order has at most one open note
  at a time and no note repeats an order line.
- *The first pass of release approval finds every shortage.* Editing a release may list a product twice.
  `Limits.FirstPassIsNotEnough` is a run to a submitted release whose lines all pass the first pass and
  whose approval is refused by the deduction loop. The first pass decides exactly for documents that list
  no product twice with a positive quantity (`Postings.FirstPassDecidesIff`); approval as a whole is right
  either way (`Guarantees.ReleaseApprovedIff`).
- *The procurement ledger's current stock is what was received.* `Limits.RepeatedProductIsMisread` is a
  run whose note lists a product twice, after which the newest-row query may return half of what was
  received. One approval keeps the reading right for every tie-break iff the note lists the product with
  quantity zero only, after its first line for it (`TwoLedgers.NoteReadsRightIff`); the reading is right at
  every moment of a run iff all approved notes are such (`TwoLedgers.ReadsRightIff`). A later note may
  repair the reading by chance, when its own query returned the right row.
- *An approved order's status is the state of its lines.* Not when a quantity was stored as zero: an order
  of zeros is complete and still APPROVED (`Limits.ZeroOrderIsNotClassified`), and a note of quantity zero
  can make an order PARTIALLY_RECEIVED of which nothing was received (`Limits.ZeroNoteIsNotClassified`).
  `ReceivingRuns.OrderApprovalClassifiesIff` and `ReceivingRuns.NoteApprovalMisclassifiesIff` say before
  the call which approvals do it, `ReceivingRuns.StatusIsClassificationIff` which orders of a run are
  affected. None are when all ordered quantities are positive (`Guarantees.OrderStatusIsClassification`).
- *A note's lines carry the product of their order line.* Creation checks it (`Receiving.CheckedLines`),
  editing a note does not. `Limits.WrongProductIsReceived` is a run that receives an order of product 0 in
  full and puts product 1 in stock. An approval keeps received and stocked quantities equal for every
  product iff the note's lines for each product total the same by their own product and by their order
  line's (`ReceivedByProduct.ApprovalConservesProductsIff`). The totals agree at every moment of a run iff
  all its approved notes are such (`ReceivedByProduct.ProductsConservedIff`), and they are if every accepted
  edit names its order lines' products (`ReceivedByProduct.OrdersReceiveTheirProducts`).
- *A hinted disconnect removes a connection everywhere.* A limit of the method, not of its callers:
  `Connections.WrongHintLeavesDanglingId` is a disconnect with another user's hint that leaves the id in an
  index. It happens exactly when a hint does not fit what the connection said when it connected
  (`Connections.HintsMustFit`). All callers pass the connect-time hints or none, which always fit
  (`Connections.DisconnectIsExactAndIdempotent`).
- *A refresh token can be redeemed until it expires.* Not always in the second it was issued in.
  `Tokens.RefreshInTheSecondOfIssueFails` is a run of a registration, a login and a refresh: the token is
  redeemable, but the new one would be the same string, and the unique hash makes the call fail. A token's
  expiry comes from a clock reading of its own before the one for its issue; if a second ended between the
  two, the strings differ and the refresh is accepted (`Tokens.RefreshAfterPausedLogin`).
  `Tokens.RefreshSucceedsIff` has the exact condition.

## Model

| member | source | states |
|---|---|---|
| Rounding.RoundIsNearestEven | app/services/inventory.py:88-102 | `round()` gives the nearest integer of units, ties to even; with `NearestEvenIsUnique` it is the only such function |
| Rounding.RoundOnGrid | app/services/inventory.py:88 | rounding does not move stored values, so `round(before + change, 4)` is exact on the grid |
| Rounding.RoundMonotone | app/services/inventory.py:100 | rounding is monotone, so it never carries a value past a grid point |
| Rounding.ToleranceIsLostInStorage | app/services/procurement.py:589-590 | any exact quantity that passes the `+ 1e-6` guard is at most the remaining quantity once stored |
| Database.Db.ApplyInventoryChange | app/services/inventory.py:67-122 | accepted iff the result is not negative; then the row and the appended entry are exactly the specified ones, otherwise nothing changes |
| Stock.PostKeepsSound | app/services/inventory.py:67-122 | one accepted change keeps every ledger entry linked to its predecessor and the snapshot equal to the replay of the ledger, for all products |
| Stock.PostLaw | app/services/inventory.py:67-122 | one line against the books: refused iff the product would go below zero; otherwise the new quantity, the nearest-even weighted average if stock came in at a cost and the old one if not, every other product untouched, and one entry with before, change, after, cost and reference |
| Stock.ReplayNonNegative | app/services/inventory.py:90-94 | replayed quantities and average costs are never negative |
| Stock.AverageBetween | app/services/inventory.py:96-102 | a costed increase leaves the rounded average between the old average and the incoming cost, and exactly at the incoming cost from zero stock |
| Stock.ValuationError | app/services/inventory.py:96-104 | on-hand times average differs from the posted value by at most half a unit per unit held at each costed increase |
| Stock.AverageWithinCosts | app/services/inventory.py:96-102 | over a whole ledger the average stays between the smallest and largest unit cost of the product's increases, zero-cost ones included |
| Guarantees.SnapshotMatchesLedger | app/services/inventory.py:67-122 | in every run each inventory row (quantity and average) is the replay of the ledger; its quantity is the sum of the changes, the newest quantity_after, and not negative |
| Guarantees.EntriesChainInEveryRun | app/repositories/inventory.py:237-269 | in every run each entry starts at its product's previous quantity_after, before + change = after, and after is not negative |
| Guarantees.ValuationInEveryRun | app/services/inventory.py:96-104 | the valuation bound for every product in every run |
| Valuation.StockIsWorthItsDocuments | app/services/inventory.py:67-122 | in every run quantity times average is approved receipts and increases at cost, less the line totals of approved releases, plus what all other changes moved at the running average, within half a unit per unit held at each costed increase and half a unit of total per release line |
| Valuation.BoughtIsHeldOrReleased | app/services/stock_release.py:374-405 | a product whose approved lines only bring it in at a cost or release it: what it cost is on hand at its average or in its row of the consumption report, within the same bound |
| Guarantees.AverageInEveryRun | app/services/inventory.py:96-102 | the average-cost bounds for every product in every run |
| Guarantees.ExactlyOnce | app/services/inventory.py:613-694 | in every run a note, adjustment or release has ledger entries iff it is APPROVED, and then one per line, in line order, recording what the line asked |
| Guarantees.EntriesSayWhatLinesSay | app/services/inventory.py:626-659 | in every run the entries of an approved document carry the product, signed quantity (or counted quantity), cost and type of its lines, one by one |
| ReceiptRows.ReceiptsExactlyOnce | app/services/procurement.py:773-787 | in every run the procurement ledger has rows of a note iff it is APPROVED, and then one per line, in line order, with the line's product, quantity and cost, each after = before + change |
| Effects.ApprovalPosts | app/services/stock_release.py:339-434 | an accepted approval of any kind posts exactly its document's lines and makes no other document due |
| Effects.PostLinesBooks | app/services/procurement.py:772-805 | the interleaved approval loop of a note changes stock and inventory ledger exactly like the batch of its lines |
| Lifecycle.RunsOnlyEvolve | app/services/inventory.py:52-55 | between any two moments of any run: both ledgers only grow, lines are frozen after DRAFT, APPROVED and CANCELLED documents never change, order statuses never move backwards, received quantities never shrink |
| Lifecycle.StatusesFollowEdges | app/services/procurement.py:44-49 | every request of every run moves every document along an edge of its workflow or not at all; which request takes which edge is the subject of the next rows |
| Requests.RequestsDoWhatTheySay | app/services/procurement.py:202-900 | in every run a request is accepted iff the rows, statuses, references and quantities it needs are there; then it writes exactly the rows it names; otherwise it changes nothing and is a not-found exactly if something it names is missing |
| History.OrderStatusIsItsStory | app/services/procurement.py:273-440 | in every run an order is REJECTED, CANCELLED, deleted, or received on (APPROVED or later) iff an accepted reject, cancel, delete or approve of it is in the run; SUBMITTED and DRAFT likewise |
| History.NoteStatusIsItsStory | app/services/procurement.py:735-880 | the same for goods received notes |
| History.AdjustmentStatusIsItsStory | app/services/inventory.py:544-735 | the same for stock adjustments |
| History.ReleaseStatusIsItsStory | app/services/stock_release.py:254-496 | the same for stock releases |
| History.OrdersHoldWhatWasAsked | app/services/procurement.py:86-256 | in every run an order has the supplier, products and quantities of its accepted creation (or of the order it duplicates) and updates, the last word counting |
| History.NotesHoldWhatWasAsked | app/services/procurement.py:562-724 | a note has the order of its creation and the lines last accepted for it |
| History.AdjustmentsHoldWhatWasAsked | app/services/inventory.py:391-531 | an adjustment has the type and lines last accepted for it |
| History.ReleasesHoldWhatWasAsked | app/services/stock_release.py:84-245 | a release has the products and quantities last accepted for it, also after approval costed them |
| Lifecycle.DeletedDocumentsStayDraft | app/services/stock_release.py:254-271 | a soft-deleted adjustment, release or order is DRAFT and never changes again |
| Postings.RemovalsSucceedIff | app/services/inventory.py:626-659 | a document of removals is accepted iff each product's total over all lines is on hand; then each product loses its total and no average moves |
| Guarantees.ReleaseApprovedIff | app/services/stock_release.py:355-397 | a release is approved iff it is live, SUBMITTED, and each product's total is on hand |
| Guarantees.AdjustmentApprovedIff | app/services/inventory.py:620-659 | an adjustment is approved iff it is live, SUBMITTED, and, for a DECREASE only, each product's total is on hand |
| Guarantees.ReleaseLineOrderIrrelevant | app/services/stock_release.py:361-429 | permuting a release's lines changes neither verdict nor stock nor cached totals |
| Guarantees.DecreaseLineOrderIrrelevant | app/services/inventory.py:626-659 | permuting the lines of a DECREASE adjustment changes neither verdict nor stock |
| Postings.FirstPassDecidesIff | app/services/stock_release.py:361-397 | whatever the books, what the first pass accepts the deduction loop can post, iff the document lists no product twice with a positive quantity |
| Postings.FirstPassSuffices | app/services/stock_release.py:361-372 | on given stock, with no product asked for twice, the first pass guarantees that the deduction loop cannot fail |
| Limits.FirstPassIsNotEnough | app/services/stock_release.py:361-397 | a run to a submitted release, edited to repeat its product, that the first pass accepts and approval refuses |
| Postings.RecountTwice | app/services/inventory.py:637-659 | repeating a recount of distinct products appends only zero changes and keeps every quantity and average |
| Guarantees.RecountApprovedTwice | app/services/inventory.py:613-680 | two approvals of the same count: both succeed, the second posts zero changes only and leaves quantities and averages alone |
| Guarantees.RecountApproval | app/services/inventory.py:637-659 | approving a recount never fails for lack of stock and leaves each product at its last listed count |
| Database.Db.PostAdjustment | app/services/inventory.py:626-659 | the adjustment loop computes the batch of its lines, or fails like it |
| Database.Db.ApproveAdjustment | app/services/inventory.py:613-680 | approval gives exactly the specified state, and on an error the old state |
| Database.Db.CheckAvailable | app/services/stock_release.py:361-372 | the pre-validation loop accepts iff each line on its own is within the stock on hand |
| Database.Db.Deduct | app/services/stock_release.py:374-405 | the deduction loop, reading averages as it goes, equals posting all lines and costing them at the averages before the call; its accumulators are the line sums |
| Database.Db.ApproveRelease | app/services/stock_release.py:339-434 | release approval gives exactly the specified state, and on an error the old state |
| Database.Db.CreateAdjustment | app/services/inventory.py:391-427 | the set-size test, the loop over the products, the new row and the loop over its items come to: refused for no, repeated or unknown products and then nothing is written, otherwise one DRAFT row with all lines in order |
| Database.Db.CheckUnique | app/schemas/inventory.py:151-156 | the list of products and its set differ in size iff two lines name the same product |
| Database.Db.UpdateAdjustment | app/services/inventory.py:485-531 | the kind written before the products are checked is taken back when one is unknown; otherwise the delete and insert loops replace the lines as a whole, on DRAFT adjustments only |
| Database.Db.AddOrderItems | app/services/procurement.py:228-256 | the loop that checks each product just before inserting its item inserts all items in order, or stops as not found iff a product is unknown |
| Database.Db.UpdatePo | app/services/procurement.py:202-261 | only DRAFT orders are edited; replaced items get new ids and a refusal in mid-loop restores the order, supplier and items |
| Database.Db.CreateGrn | app/services/procurement.py:562-619 | a note is only raised on an approved or partially received order, with lines of that order within the remaining quantities |
| Database.Db.UpdateGrn | app/services/procurement.py:674-724 | only DRAFT notes are edited; the old items are deleted, then each line is checked and inserted, and a refusal in mid-loop restores them |
| Database.Db.ApproveGrn | app/services/procurement.py:760-835 | the one loop over both ledgers, order lines and snapshot gives exactly the specified state, and on an error the old state |
| Database.Db.StatusAfterReceipt | app/services/procurement.py:807-826 | the two-flag loop computes the status by quantifiers over the lines |
| Database.Db.ServeAll | app/database/engine.py:103-109 | serving requests one after the other, with rollback, ends in the state of the state machine |
| Receiving.PostLinesGains | app/services/procurement.py:789-796 | the approval loop gives every order line the sum of the note's lines for it and touches nothing else of any order |
| Receiving.ApproveGrnConserves | app/services/procurement.py:789-796 | approval keeps received = sum of approved note lines, for every line of every order |
| Receiving.StatusAfterGain | app/services/procurement.py:807-828 | the recomputed status is true of the lines and never a step back |
| Receiving.CheckedLines | app/services/procurement.py:578-594 | lines that pass validation are lines of the order, within its remaining quantities, and on creation of its product |
| Guarantees.ReceiptsAreConserved | app/services/procurement.py:772-796 | in every run each order line's received quantity is the sum of the approved note lines for it |
| ReceivedByProduct.ApprovalConservesProductsIff | app/services/procurement.py:772-796 | an approval keeps, for all products, received on order lines = approved note quantities iff the note's lines for each product total the same by their own product and by their order line's |
| ReceivedByProduct.ReceivedIsBooked | app/services/procurement.py:772-805 | in every run the orders' received quantity of a product is that of the approved lines booked on its order lines, and on hand differs from it by the lines that name another product, adjustments and releases |
| ReceivedByProduct.ProductsConservedIff | app/services/procurement.py:772-796 | received on orders = approved note quantities, for all products at every moment of a run, iff each approved note totals the same per product by its own and by its order lines' products |
| ReceivedByProduct.OrdersReceiveTheirProducts | app/services/procurement.py:697-720 | in every run whose accepted note edits name their order lines' products, received on orders = approved note quantities for each product, and on hand is that plus adjustments minus releases |
| Limits.WrongProductIsReceived | app/services/procurement.py:697-720 | a run with an edited note that receives an order of one product in full and stocks another |
| ReceivingRuns.OrderApprovalClassifiesIff | app/services/procurement.py:807-828 | approving an order gives it the status of its lines iff some ordered quantity is positive |
| ReceivingRuns.NoteApprovalMisclassifiesIff | app/services/procurement.py:807-828 | from a correct status a note approval leaves a wrong one iff nothing was received before, the note's quantities are all zero, and the order has lines stored as zero beside positive ones |
| ReceivingRuns.StatusIsClassificationIff | app/services/procurement.py:807-828 | in every run a receivable order has the status of its lines (none, some or all received) unless nothing was received on it and, before its first approved note, all its quantities are zero, or after it, some and not all |
| Limits.ZeroOrderIsNotClassified | app/services/procurement.py:807-828 | a run whose approved order, stored with quantity zero, is complete by its lines but not by its status |
| Limits.ZeroNoteIsNotClassified | app/services/procurement.py:807-828 | a run whose order is PARTIALLY_RECEIVED although nothing was received on it |
| Guarantees.NoteApprovalNeverCrashes | app/services/procurement.py:808-811 | in every run approval of a note succeeds iff it is SUBMITTED; the unguarded lookup of its order never fails |
| ReceivingRuns.TolerancesAreExact | app/services/procurement.py:811-819 | on stored quantities the three `1e-6` comparisons are the plain comparisons |
| ReceivingRuns.NoOverReceiptInSerialRuns | app/services/procurement.py:578-594 | with at most one open note per order and no repeated order line in a note, no line is received beyond its ordered quantity |
| ReceivingRuns.ApprovalOverReceivesIff | app/services/procurement.py:772-796 | approval leaves the order within its quantities iff each line had room for the note's total on it |
| Limits.OverReceiptIsReachable | app/services/procurement.py:760-796 | a run that receives twenty units on an order of ten |
| TwoLedgers.ProcurementStockIsApprovedReceipts | app/repositories/procurement.py:401-413 | in every run, for a product no approved note lists again with a positive quantity, get_current_stock is the total of its approved receipts, whatever the tie-break |
| TwoLedgers.NoteReadsRightIff | app/repositories/procurement.py:401-413 | from rows in order, the approval loop leaves get_current_stock right for every tie-break iff all lines of the product after its first have quantity zero |
| TwoLedgers.ReadsRightIff | app/repositories/procurement.py:401-413 | get_current_stock is right at every moment of a run, for every tie-break, iff no approved note lists the product again with a positive quantity |
| Limits.RepeatedProductIsMisread | app/repositories/procurement.py:401-413 | a run, with a note listing a product twice, after which some tie-break does not report what was received |
| Reconciliation.OnHandIsBalance | app/services/inventory.py:67-122 | on hand = approved receipts + net approved adjustments - approved releases |
| Reconciliation.TwoLedgersAgree | app/services/procurement.py:773-805 | in every run on hand = procurement stock + net adjustments - releases, for products no approved note lists again with a positive quantity |
| Reconciliation.ReleaseTotalsReconcile | app/services/stock_release.py:399-430 | in every run an approved release's total quantity is the sum of its lines and of its negated ledger changes, its total cost the sum of its line totals, each line costed at the unit cost its ledger entry records |
| Catalogue.DocumentsNameKnownProducts | app/services/inventory.py:398-404 | as long as no product or supplier is deleted, every line of every order, adjustment and release names a known product and every order a known supplier |
| Consumption.AggregateLines | app/services/stock_release_report.py:172-187 | the inner loop adds each line to its product's row and leaves the other rows |
| Consumption.Aggregate | app/services/stock_release_report.py:169-187 | the report has a row exactly for the listed products, with the sums of quantities, costs and line counts |
| Consumption.ReportedQuantityMatchesLedger | app/services/stock_release_report.py:185 | in every run a product's reported quantity is the negated sum of its release ledger changes |
| Consumption.ReportedCostMatchesReleases | app/services/stock_release_report.py:186 | in every run the reported costs add up to the cached total costs of the reported releases |
| Pricing.PurchaseOrderTotals.Recalc | app/services/procurement.py:60-75 | the subtotal is the rounded sum of quantity times price; discount, tax and total are the rounded sums of item amounts where discount is its percentage of the base and tax its percentage of what is left |
| Pricing.AmountsAreBilled | app/services/procurement.py:52-57 | base is quantity times price, discount times 100% is base times its percentage, tax times 100% is base less discount times its percentage |
| Pricing.GrossIsDiscountedAndTaxed | app/services/procurement.py:52-57 | a line bills its base less the discount, plus tax on what is left |
| Pricing.LineTotalsVersusTotal | app/services/procurement.py:52-75 | for n lines the sum of the rounded line totals is within (n + 1) / 2 units of the total |
| Pricing.FieldsVersusTotal | app/services/procurement.py:72-75 | subtotal - discount + tax from the rounded fields is within two units of the total |
| Pricing.RoundedSigns | app/services/procurement.py:72-75 | 0 <= discount <= subtotal, 0 <= tax and 0 <= total after rounding |
| Connections.HubIsWellIndexed | app/websockets/manager.py:79-152 | in every run the room, user and role sets hold exactly the live connections that named their key |
| Connections.IndicesHoldLiveConnections | app/websockets/manager.py:63-73 | in every run every id in a set is a registered connection |
| Connections.DisconnectIsExactAndIdempotent | app/websockets/manager.py:120-152 | in every run the hinted disconnect equals the full scan, removes its id everywhere, touches no other, and is idempotent, also after a failed send |
| Connections.HintsMustFit | app/websockets/manager.py:134-146 | a hinted disconnect leaves no dangling id iff both hints fit the connection's own user and role |
| Connections.WrongHintLeavesDanglingId | app/websockets/manager.py:134-139 | a disconnect with another user's hint that leaves an unregistered id in an index |
| Connections.ConnectionManager.Disconnect | app/websockets/manager.py:120-152 | the loops over the index sets compute the specified registry |
| Connections.ConnectionManager.SendJson | app/websockets/manager.py:158-178 | true iff the connection is registered and its socket takes the message; a raising socket is dropped everywhere |
| Connections.ConnectionManager.SendTo | app/websockets/manager.py:191-200 | the send loop, with any calls of other tasks at each await, counts the targets registered and accepting at their turn and ends in the hub of all those calls in order |
| Connections.LoopReaches | app/websockets/manager.py:191-255 | whatever other tasks do at the awaits, short of removing a target: the count is that of the accepting targets, exactly the raising ones are gone, and the indices are exact |
| Connections.LoopAlone | app/websockets/manager.py:191-200 | without other tasks the loop drops the raising registered targets everywhere and changes nothing else |
| Connections.ConnectionManager.SendToUser | app/websockets/manager.py:202-220 | that loop over the ids the user's set held at the call, in some order |
| Connections.ConnectionManager.SendToRole | app/websockets/manager.py:222-240 | the same for a role |
| Connections.ConnectionManager.BroadcastToAll | app/websockets/manager.py:242-255 | the same for every connection |
| Connections.ConnectionManager.HandleAll | app/websockets/manager.py:79-255 | any sequence of connects, disconnects and sends ends in the hub of the same events and keeps the indices exact |
| Delivery.DecodeRecoversTarget | app/websockets/manager.py:369-381 | decoding a channel name gives back its target for every id, and every channel matches the subscription pattern |
| Delivery.ManagersServeTheProtocol | app/websockets/manager.py:202-249 | in every run the calls a worker's manager got leave exact indices over exactly the worker's live connections, so the sets it copies for a user, a role or a broadcast are the protocol's targets |
| Delivery.AtMostOnce | app/websockets/manager.py:291-306 | under every interleaving a connection gets a published message at most once, and only if the message is for it |
| Delivery.DeliveriesAreAcceptedSends | app/websockets/manager.py:158-178 | in every run a message was delivered to a connection as often as a send of it found the connection there and its socket accepting, and failed iff some send did not |
| Delivery.DeliveryIsVerdict | app/websockets/manager.py:158-178 | a send of a worker's loop is a delivery iff send_json of that worker's manager returns True for it |
| Delivery.ExactlyOnce | app/websockets/manager.py:350-381 | a connection older than the message, matching it and still there gets it exactly once, if its worker published it or the bus handed it over, its send loop is past it, and its socket accepted what it was sent |
| Delivery.BusComesAfterLocal | app/websockets/manager.py:291-306 | in every run a message on the bus has been tried on every local target of its publisher |
| Delivery.CanBeForwarded | app/websockets/manager.py:270-306 | once the publisher's loop is through, putting the message on the bus, handing it to another worker and sending it to a matching connection are possible and deliver it |
| Delivery.CanBeSentLocally | app/websockets/manager.py:291-306 | a publishing worker's first send to a matching connection of its own is possible and delivers |
| Numbering.Pad5ReadsBack | app/repositories/procurement.py:70 | zero-padded numerals read back as their number, also beyond five digits |
| Numbering.Pad5Shape | app/repositories/procurement.py:70 | digits only, exactly five up to 99999, and no leading zero beyond five |
| Numbering.NumbersAreOrdinals | app/repositories/stock_release.py:44-54 | in every sequence of creations and soft deletions the numbers of one day and kind are 1, 2, 3, ..., whatever was deleted |
| Numbering.NumbersAreDistinct | app/repositories/inventory.py:431-441 | no two documents of a kind share a number, deleted ones included |
| Numbering.NewPoNumber | app/services/procurement.py:102-104 | on any table the retry loop runs not at all or out of any patience; on the table of a sequential run the number is free and it runs not at all |
| Numbering.UniqueSlug | app/services/master_data.py:64-70 | the slug loop returns the first unused candidate after at most as many failed tries as there are live slugs |
| Numbering.UniqueSku | app/services/master_data.py:552-558 | the same for the SKU loop, from any starting sequence |
| Slugs.SlugifyIsSlug | app/services/master_data.py:47-52 | on ASCII the result has only lower-case letters, digits and single interior hyphens |
| Slugs.SlugifyFixesSlugs | app/services/master_data.py:47-52 | every such string is mapped to itself |
| Slugs.SlugifyIsIdempotent | app/services/master_data.py:47-52 | applying it twice is applying it once |
| Slugs.SlugifyKeepsLettersAndDigits | app/services/master_data.py:47-52 | the letters and digits of the lower-cased text survive, in order, and no others appear |
| Slugs.SlugifyIsOnePass | app/services/master_data.py:47-52 | the five passes write what one pass writes: letters and digits in lower case, one hyphen between two of them iff a space, underscore or hyphen came between, nothing else |
| Tokens.RedeemedAtMostOnce | app/services/auth.py:295-345 | in any run a refresh token is redeemed at most once |
| Tokens.RowsOkInEveryRun | app/services/auth.py:500-531 | every run from the empty store has the row invariant that the token theorems start from: rows belong to their token's user and expire one lifetime after its issue |
| Tokens.RevokeAllIsFinal | app/repositories/user.py:134-149 | after a successful logout-all, password reset or password change, a token the user had before is never redeemed |
| Tokens.ResetTokenWorksOnce | app/services/auth.py:395-416 | a reset token that is not the user's current one, a used one included, is refused until it is issued anew |
| Tokens.NewPasswordTakesEffect | app/services/auth.py:395-464 | after a reset or change, and until the next one for that user, a login succeeds iff it has the new password, the user is active and no token with the same claims exists; no token from before can be refreshed |
| Tokens.OtherUsersUnaffected | app/repositories/user.py:134-149 | a logout-all, reset or change alters neither logins nor refreshes of other users |
| Tokens.UnrevokedWithinLogins | app/services/auth.py:500-531 | a user's unrevoked tokens never outnumber the logins since the last revoke-all |
| Tokens.OthersKeepTheirTokens | app/repositories/user.py:151-164 | over any run in which nobody presents the token or revokes all tokens of its user, it is redeemable at the end iff its time is not up; no other call and no housekeeping ends it earlier |
| Tokens.RefreshSucceedsIff | app/services/auth.py:310-335 | rotation succeeds iff the token is live and unrevoked, its user active, and no stored token has the claims of the new one; it fails in the second of issue if neither token's two clock readings straddle a second |
| Tokens.RefreshInTheSecondOfIssueFails | app/services/auth.py:331-335 | a run whose redeemable token is refused in the second of its login |
| Tokens.RefreshAfterPausedLogin | app/core/security.py:60-71 | the same run with a second ending between the login's two readings, where the refresh is accepted |
| Tokens.IssueCleansUp | app/repositories/user.py:151-164 | after tokens were issued to a user, the user has no expired row, the new row is unrevoked, and every other remaining row is as before |
| Tokens.LogoutIsFinal | app/services/auth.py:251-264 | after a logout no later run redeems the presented token, if it was stored; every other row and field is as before, and an unstored token changes nothing |
| Tokens.IssuedIsRedeemable | app/services/auth.py:500-531 | a token just issued by a login or refresh can be redeemed |
| Tokens.RegistrationLogsIn | app/services/auth.py:84-110 | registration takes exactly a new name, and its password logs in at once |
| Tokens.ActiveAsSet | app/services/auth.py:222-224 | an account is active as last set; while it is not, every login and refresh of its user is refused |
| Tokens.ForgotIsSilent | app/services/auth.py:351-373 | a forgotten-password call is never an error, does nothing for unknown or inactive users, and touches no one else's reset token |
| Tokens.ResetAcceptedIff | app/services/auth.py:351-411 | until the next forgotten-password call or reset, a reset is accepted iff it has the token sent and the token's time is not up |
| Tokens.UsedResetTokenIsRefused | app/services/auth.py:413-416 | after a reset its token is refused until one is issued anew |
| Tokens.ChangeAcceptedIff | app/services/auth.py:445-460 | until the password is set again, a change is accepted iff it names the last one set as current and a different one as new |
| Tokens.IssueKeepsTheRest | app/repositories/user.py:151-164 | housekeeping removes neither rows of other users nor rows not past expiry |
| Tokens.TokenService.RefreshToken | app/services/auth.py:295-345 | revoke-then-issue gives exactly the specified rows, and any later error restores the revoked row |
| Tokens.TokenService.ServeAll | app/services/auth.py:251-531 | serving any list of requests ends in the store of the state machine the theorems are about |

## Left out

- Audit log, notifications, e-mail, stock alerts and the WebSocket events sent by services: side effects that do not feed back into stock. Several calls pass a `new_values` argument the audit repository does not accept; the model takes the intended step.
- Binary floating point, numeric overflow of the database columns, and payload quantities finer than 10^-4: replaced by exact fixed point on the stored grid.
- SQLAlchemy session mechanics, foreign keys and concurrent transactions: no row is locked, so requests are modelled as serialized. Transactions are taken to have distinct times.
- Whether `po.items` is fresh when order totals are recomputed is ORM behaviour: `Pricing` works on the item list it is given, and money fields of orders are not part of `Tables.State`.
- Header fields (reasons, notes, dates, actors, reference numbers), read-only queries, pagination, dashboards, print data, and the sorting, average and spreadsheet layout of the consumption report.
- Slugs.SlugifyIsSlug: ASCII only; Unicode case folding and word characters are not modelled.
- Numbering.UniqueSku: the upper-cased three-letter stem and the LIKE count it starts from are inputs.
- Numbering.NewPoNumber: the patience bound stands for an unbounded loop; concurrent creations, which could insert a number between count and insert, are not modelled.
- Tokens.RedeemedAtMostOnce: hashing is taken as injective, token claims as whole seconds, the row's expiry as read together with the issue claim, random reset tokens as distinct. Login lockout counters (what they keep depends on rollback behaviour), access tokens and e-mail verification are not modelled.
- Supplier codes, barcodes, RBAC, stock-level classifiers, and CRUD on master data, users and roles: easy or settled by single expressions.
