# Inventory ledger: a Dafny model

This project models the invoice and credit ledger of a small inventory backend, and the
client-side screens that build its requests.

The backend keeps these tables:

- products, with their stock, prices, vendor and expiry tracking;
- vendors and customers;
- purchase invoices and sale invoices, each with a total, the amount paid, the credit still owed and a due date;
- sale invoice lines;
- stock entries, one per delivery of a product;
- an append-only log of credit payments.

Each route handler is a chain of checks followed by a few writes inside one transaction.
Either every write commits, or the tables are left as they were and the response carries
the error's status.

## Modules

- **Js** (`js.dfy`): the JavaScript values the code handles (`undefined`, `null`, booleans, numbers, strings). It models the coercions the code relies on: truthiness, loose `== null`, `Number(...)`, `isNaN`, the relational operators, `parseFloat`, `parseInt`, `toFixed(2)` and the decimal text of integers. Numbers are exact reals.
- **Utils** (`utils.dfy`): the row normaliser `parseNumericFields` and the generated invoice number.
- **Ledger** (`ledger.dfy`): the tables as one mutable `Database` object. It has a pure snapshot `Db`, and `Commit` replaces every table at once. Every handler is a method that modifies the database, proved to leave it in the state a pure function of the old snapshot gives. The properties are lemmas about those functions.
- **StockPurchases** (`stock_purchases.dfy`): `POST /stock-purchases` and `PUT /stock-purchases/:id/pay-credit`. It covers the payment split, line-item parsing and the item loop that raises stock and writes stock entries.
- **Sales** (`sales.dfy`): `POST /sale-invoices`. It covers the stock loop over the lines, the customer check, the header and line inserts, and the rollback with its status mapping.
- **Credit** (`credit.dfy`): `POST /sell-records/pay-credit`, the payment history of an invoice, and a customer's sale invoices.
- **Stock** (`stock.dfy`): `POST /stock-entries`, `PUT /stock-entries/:id`, the recent-price lookup with its fallback, and the aggregated stock.
- **SellScreen** (`sell.dfy`): the sale screen, as a class whose methods are its handlers. It covers the cart (add, update quantity, remove), the total, the payment fields, and the body `addSale` posts.
- **PurchaseForm** (`purchase_form.dfy`): the purchase form, as a class. It covers the vendor filter, the product rows and their numeric parsing, the bill total, and the body `handleSubmit` posts.
- **PurchaseCreditModal** and **SaleCreditModal** (`pay_credit_modal.dfy`, `pay_credit_modal_sell.dfy`): the two pay-credit dialogs. Their submit checks are proved against the routes they post to.

Where the screens and the routes disagree, the model says so as a lemma:

- **No invoice number is posted.** Neither the sale screen nor the purchase form sends an invoice number, so both routes answer 400 to whatever they post (`SellScreen.PostedSaleRefused`, `PurchaseForm.PostedPurchaseRefused`).
- **Bank transfers are offered but refused.** The purchase form offers a bank transfer, which the purchase route refuses (`PurchaseForm.BankTransferPostRefused`).
- **The purchase total is not checked.** The purchase route never compares the caller's total with the line items (`StockPurchases.ItemPricesIgnored`).
- **Amounts sent as text can give negative credit.** A total and an amount paid sent as text compare as text, and can record a negative credit (`StockPurchases.TextAmountsGiveNegativeCredit`).
- **The purchase split can overstate the total.** Rounding each part of the split to cents can make them add up to more than the rounded total (`StockPurchases.HalfCentSplitOverstates`).
- **A negative sale quantity raises stock** (`Sales.NegativeQuantityRaisesStock`).
- **Stock entries bypass the stock column.** A stock entry added on its own is counted by the aggregated stock but not by the product's stock column (`Stock.AddStockEntryWidensGap`, `Stock.AddStockEntryShowsInAggregate`).
- **The end date of a customer's listing stops at midnight.** The customer listing compares the sale's date and time with the bounds exactly as sent, so a bare end date stands for that day's midnight and drops the day's later sales. The sale listing, by contrast, pads its end date with `23:59:59` (backend/routes/sales.js:195-199) (`Credit.DateOnlyEndDropsSameDaySale`).
- **Sale amounts are stored unchecked.** The sale route stores the caller's paid and credit amounts without checking them against the total (`Sales.RecordSaleEffect`).
- **The purchase due date is never stored.** The purchase route never stores a credit due date, and its pay-credit ignores the new one the dialog sends (`PurchaseCreditModal.AcceptedPaymentSettles`).

## Model

| member | source | states |
|---|---|---|
| Utils.NormalizeField | backend/utils.js:21-31 | a listed column that is not null becomes a number, an integral one for the `parseInt` columns; unlisted columns and nulls are kept as they are |
| Utils.Normalized | backend/utils.js:20-33 | the returned row has the same columns; unlisted columns and nulls are unchanged, listed non-null columns are numbers |
| Utils.ParseNumericFields | backend/utils.js:1-34 | a missing row is returned as it is; otherwise the loop over the listed columns yields exactly the normalised row |
| Utils.NormalizeFieldIdempotent | backend/utils.js:21-31 | normalising a column twice gives what normalising it once gives |
| Utils.NormalizedIdempotent | backend/utils.js:1-34 | normalising a normalised row changes nothing |
| Utils.NormalizeUnparsable | backend/utils.js:28-30 | a listed column that does not parse becomes 0 |
| Utils.NormalizeNumber | backend/utils.js:23-27 | a numeric money column keeps its value; an integer column is truncated |
| Utils.GenerateInvoiceNumber | backend/utils.js:36-38 | the number is `INV-<clock>-<tie>` with a tie breaker in 0..999 |
| Utils.InvoiceTextInjective | backend/utils.js:37 | two generated numbers are equal only when both clock and tie breaker are |
| Sales.ItemRows | backend/routes/sales.js:71-77 | one item row per line, in order, carrying the line's product and quantity |
| Sales.CheckSale | backend/routes/sales.js:16-59 | a request that passes every check has an invoice number, a non-empty products array and a total above 0, its stock loop succeeds with the products table returned, and its customer is absent or exists |
| Sales.RecordSale | backend/routes/sales.js:7-95 | the tables after a sale request and the reply. Its promises are stated by `RecordSaleEffect` (what an accepted sale writes, and that nothing else changes), `RecordSaleRefused` (each refusal in the handler's order, as an iff), `RecordSaleAcceptedIff` (exactly which requests are recorded), `RecordSaleRefusedRollsBack` (a refusal changes nothing, with a status chosen from the message), `RecordSaleConsistent` and the status lemmas below |
| Sales.RecordSaleInvoice | backend/routes/sales.js:7-95 | the handler's reply and new tables are those `RecordSale` gives, with the stock loop proved against `Withdraw` |
| Sales.WithdrawSucceedsIff | backend/routes/sales.js:30-50 | from non-negative stock and quantities, the stock loop succeeds if and only if every line names a product and no product is asked for more than its stock in total |
| Sales.RequestedNonNegative | backend/routes/sales.js:30-50 | non-negative quantities ask a non-negative total of any product |
| Sales.WithdrawEffect | backend/routes/sales.js:38-49 | a successful loop lowers each product's stock by its total requested quantity and touches nothing else |
| Sales.WithdrawKeepsStock | backend/routes/sales.js:38-49 | the loop never leaves a product with negative stock |
| Sales.NegativeQuantityRaisesStock | backend/routes/sales.js:38-49 | a line with quantity -5 passes the stock check and raises the stock by 5 |
| Sales.RecordSaleConsistent | backend/routes/sales.js:62-79 | a recorded sale keeps every table's references intact and no stock negative |
| Sales.RecordSaleEffect | backend/routes/sales.js:16-80 | an accepted sale passed every check (invoice number, non-empty products, total above 0, a successful stock loop, a customer that is absent or exists), answers 201 with the new id, stores the invoice with the amounts exactly as sent and no due date, appends exactly `ItemRows(id, lines)` (one row per line, in order), moves the id counter on by one, lowers each product's stock by its requested quantity keeping its other columns, and the frame clause says no other table changes |
| Sales.WithdrawErrors | backend/routes/sales.js:30-40 | the stock loop fails only with an unknown product or a lack of stock |
| Sales.RecordSaleRefused | backend/routes/sales.js:16-57 | a refusal changes nothing; 400 for a missing invoice number iff it is falsy; 400 for missing products iff the number is given and the array is missing or empty; 400 for the total iff those pass and `total_price <= 0`; an unknown-product or short-stock error iff those pass and the stock loop fails, with that error and its message's status; the missing-customer error iff the loop succeeds and a given customer does not exist; 201 iff every check passes |
| Sales.RecordSaleAcceptedIff | backend/routes/sales.js:16-57 | with stock and quantities not negative, a sale is recorded iff it has an invoice number, a non-empty products array, a positive total, an absent or existing customer, every line names a product, and no product is asked for more than its stock in total |
| Sales.RecordSaleRefusedRollsBack | backend/routes/sales.js:81-88 | a refused sale leaves every table as it was, and its status is 404 exactly when the message contains "not found" |
| Sales.MissingInvoiceNumberIs400 | backend/routes/sales.js:17-19 | a request without an invoice number is refused with 400 and changes nothing |
| Sales.MissingInvoiceNumberStatus | backend/routes/sales.js:17-19 | the missing-invoice-number error answers 400 |
| Sales.MissingProductsStatus | backend/routes/sales.js:20-22 | the missing-products error answers 400 |
| Sales.NonPositiveTotalStatus | backend/routes/sales.js:23-25 | the non-positive-total error answers 400 |
| Sales.NumericCustomerMissingIs400 | backend/routes/sales.js:53-57 | an unknown customer given by number answers 400 |
| Sales.UnknownProductIs404 | backend/routes/sales.js:32-35 | an unknown product answers 404 |
| Sales.StockShortageNamedNotFoundIs404 | backend/routes/sales.js:38-40 | a lack of stock answers 404 instead of 400 when the product's name contains "not found" |
| Credit.SaleKey | backend/routes/credit.js:54-57 | a record id that finds a row names a stored sale invoice |
| Credit.PaySaleCredit | backend/routes/credit.js:39-117 | the tables after a sale credit payment and the reply. Its promises are stated by `PaySaleCreditBalance`, `PaySaleCreditEffect`, `PaySaleCreditDueDate`, `PaySaleCreditRefused`, `PaySaleCreditConsistent` and `PayAllConserves` |
| Credit.PaySaleCreditHandler | backend/routes/credit.js:39-117 | the handler's reply and new tables are those `PaySaleCredit` gives |
| Credit.ReadAmounts | backend/routes/credit.js:64-65 | the amounts the handler reads are the stored paid and credit columns after `parseNumericFields` |
| Credit.NormalizedAmounts | backend/routes/credit.js:64-65 | normalising the row read back yields the paid and credit amounts `PaidOf` and `CreditOf` name |
| Credit.PaySaleCreditBalance | backend/routes/credit.js:67-102 | an accepted payment is positive and within the credit; the credit drops and the paid amount grows by it, their sum is kept, the credit stays non-negative, and the reply is the new credit |
| Credit.PaySaleCreditEffect | backend/routes/credit.js:94-99 | an accepted payment is logged against its invoice, and every other invoice and table is left alone |
| Credit.PaySaleCreditDueDate | backend/routes/credit.js:84-89 | after a payment the due date is the new one when credit remains and one is given, null when the credit is paid off, and otherwise kept |
| Credit.PaySaleCreditRefused | backend/routes/credit.js:42-72 | a refused payment changes nothing; 400 exactly for a bad amount, a missing date, or an amount above a numeric credit, and 404 exactly for an unknown invoice |
| Credit.PaySaleCreditConsistent | backend/routes/credit.js:94-101 | a payment keeps the tables consistent |
| Credit.PayAllConserves | backend/routes/credit.js:67-102 | over any sequence of payments an invoice's credit never grows, stays non-negative once it is, and credit plus paid is constant |
| Credit.SumViewsAppend | backend/routes/credit.js:23-27 | the history's sum splits over concatenation |
| Credit.HistoryAddsUp | backend/routes/credit.js:7-29 | for any invoice id the route is given that names the invoice (text, as the path parameter arrives, or a number), the history shown adds up to the payments logged against that invoice and kind |
| Credit.PaymentShowsInHistory | backend/routes/credit.js:96-99 | an accepted sale payment appears at the end of that invoice's history, with its date and amount |
| Credit.CustomerSaleInvoices | backend/routes/credit.js:235-277 | 400 exactly when the customer id does not parse; otherwise 200 and only stored invoices. Which invoices are listed is stated by `ListingBoundsInclusive`, `ListingWidens`, `UnfilteredListingContainsAll`, `ListingsOfCustomersDisjoint`, `PaymentKeepsListings`, `RecordedSaleIsListed` and `AnonymousSaleIsUnlisted` |
| Credit.ListingBoundsInclusive | backend/routes/credit.js:256-265 | both date bounds are inclusive: a customer's invoice is listed when the start bound, the end bound, or both equal its sale's moment |
| Credit.DateOnlyEndDropsSameDaySale | backend/routes/credit.js:256-265 | the bounds are compared as sent: with a bare day (its midnight) as the end bound, alone or as both bounds, a sale made later that day is not listed, while the same day as start bound lists it |
| Credit.ListingWidens | backend/routes/credit.js:256-265 | widening the date range, by moving a bound out or dropping it, never drops an invoice |
| Credit.UnfilteredListingContainsAll | backend/routes/credit.js:252-265 | every filtered listing is contained in the listing without dates |
| Credit.ListingsOfCustomersDisjoint | backend/routes/credit.js:238-254 | ids that parse to different customers never share an invoice, whatever the ranges |
| Credit.ListingReadsCustomerAndDate | backend/routes/credit.js:244-265 | the listing depends only on each invoice's customer and sale date: tables that agree on those give the same listing |
| Credit.PaymentKeepsListings | backend/routes/credit.js:76-99 | a sale credit payment, accepted or refused, leaves every customer's listing over every range unchanged, since it only rewrites amounts and the due date |
| Credit.RecordSaleStoresCustomer | backend/routes/sales.js:52-65 | a recorded sale stores the request's customer, or null when it names none |
| Credit.RecordedSaleIsListed | backend/routes/credit.js:238-252 | a sale recorded for a customer given by a non-zero number appears in that customer's listing |
| Credit.AnonymousSaleIsUnlisted | backend/routes/credit.js:252 | a sale recorded without a customer appears in no customer's listing |
| StockPurchases.CollectSpec | backend/routes/stock-purchases.js:35-53 | the mapped items collect if and only if every item parses, into their values in order; otherwise into the error of the first item that fails |
| StockPurchases.ReceiveItems | backend/routes/stock-purchases.js:184-244 | the item loop, run on a working copy of the products table, yields what `Receive` gives: the updated products and the entries in order, or the first item's error |
| StockPurchases.RecordPurchaseHandler | backend/routes/stock-purchases.js:71-268 | the handler's reply and new tables are those `RecordPurchase` gives |
| StockPurchases.PayPurchaseCreditHandler | backend/routes/stock-purchases.js:377-465 | the handler's reply and new tables are those `PayPurchaseCredit` gives |
| StockPurchases.PresentParamsValid | backend/routes/stock-purchases.js:58-69 | parameters none of which is null or undefined always pass `validateQueryParams` |
| StockPurchases.InvoiceParamsValid | backend/routes/stock-purchases.js:156-173 | the invoice row's parameters pass validation once the request checks have passed, so it never throws there |
| StockPurchases.CheckedFieldsPresent | backend/routes/stock-purchases.js:83-86 | a request that passes the checks carries an invoice number, a purchase date and a payment method |
| StockPurchases.ItemParamsValid | backend/routes/stock-purchases.js:206-239 | the stock-entry and product-update parameters of an accepted item always pass validation, with or without expiry tracking |
| StockPurchases.ParseProductFields | backend/routes/stock-purchases.js:30-56 | the items the purchase route accepts, or the first error. Stated by `ParseProductFieldsEffect`, `ParseItemsFirstError`, `ParsedItemFacts` and `ItemPricesIgnored` |
| StockPurchases.ParseProductFieldsEffect | backend/routes/stock-purchases.js:30-56 | a missing or empty array is refused; an accepted one gives one item per element with a positive stock, both ids read by `parseInt`, and a truthy or null expiry date |
| StockPurchases.ParseItemsFirstError | backend/routes/stock-purchases.js:35-46 | an array that does not parse fails with the error of its first failing item, every earlier item having parsed |
| StockPurchases.ParsedItemFacts | backend/routes/stock-purchases.js:36-52 | one accepted item has a positive stock, both ids read as integers, and a truthy or null expiry date |
| StockPurchases.ParseFloatOrDefaultStable | backend/routes/stock-purchases.js:24-28 | an amount read back after it was stored rounded is the amount stored |
| StockPurchases.StoredAmountRounded | backend/routes/stock-purchases.js:24-28 | the amount `parseFloatOrDefault` gives is already rounded to cents |
| StockPurchases.ParseFloatOrDefaultClose | backend/routes/stock-purchases.js:26-27 | rounding moves an amount by at most half a cent |
| StockPurchases.PaymentSplit | backend/routes/stock-purchases.js:118-140 | the purchase's paid and credit parts by payment method. Stated by `PaymentSplitAddsUp`, `PaymentSplitMethods`, `PaymentSplitNonNegative`, `CashAndCreditSplit` and `CashAndCreditAccepts`; `TextAmountsGiveNegativeCredit` shows the text case |
| StockPurchases.PaymentSplitAddsUp | backend/routes/stock-purchases.js:118-140 | the paid and credit parts are numbers that add up to the total |
| StockPurchases.PaymentSplitMethods | backend/routes/stock-purchases.js:122-140 | only cash, credit and cash-and-credit are accepted; a bank transfer is refused |
| StockPurchases.PaymentSplitNonNegative | backend/routes/stock-purchases.js:129-136 | with a positive total neither part is negative, unless total and amount paid both arrive as text |
| StockPurchases.CashAndCreditSplit | backend/routes/stock-purchases.js:129-133 | an accepted cash-and-credit amount is a number between 0 and the total |
| StockPurchases.CashAndCreditAccepts | backend/routes/stock-purchases.js:129-135 | every numeric amount paid from 0 up to the total is accepted, with the rest as credit |
| StockPurchases.TextAmountsGiveNegativeCredit | backend/routes/stock-purchases.js:88-135 | a total of "9" with "10" paid passes every check and records a credit of -1 |
| StockPurchases.NineSortsAfterTen | backend/routes/stock-purchases.js:130 | "9" is not less than "10" as text |
| StockPurchases.StoredSplitExactOnCents | backend/routes/stock-purchases.js:145-153 | amounts in whole cents are stored exactly, so the stored parts add up to the stored total |
| StockPurchases.HalfCentSplitOverstates | backend/routes/stock-purchases.js:145-153 | a total of 0.01 with 0.005 paid stores 0.01 paid and 0.01 credit, together more than the total |
| StockPurchases.AddedNonNegative | backend/routes/stock-purchases.js:39-43 | items with positive stock add a non-negative number of units of any product |
| StockPurchases.ReceiveStep | backend/routes/stock-purchases.js:184-243 | one loop step writes the first item's entry and runs the rest on the updated products |
| StockPurchases.ReceiveEntries | backend/routes/stock-purchases.js:184-231 | the loop writes one entry per item, numbered from the next entry id, under the invoice, for the item's product and units, and every item names a known product |
| StockPurchases.ReceiveEntryRows | backend/routes/stock-purchases.js:184-231 | each entry is the row for its item: next id, the invoice, product and units, the purchase date, payment method, vendor and clock, and the item's expiry date exactly when its product tracks one; every item's product belongs to the vendor and has an expiry date when tracked |
| StockPurchases.ReceiveProduct | backend/routes/stock-purchases.js:196-243 | only a product's stock and expiry date change; an untracked product keeps its expiry date, a tracked one takes the date of the last item received for it, and a product no item names is unchanged |
| StockPurchases.ReceiveUnits | backend/routes/stock-purchases.js:225-243 | each product's stock rises by the units received for it, and its new entries add up to those same units |
| StockPurchases.RecordPurchase | backend/routes/stock-purchases.js:71-268 | the tables after a purchase request and the reply. Stated by `RecordPurchaseEffect`, `RecordPurchaseExpiry`, `RecordPurchaseConsistent`, `RecordPurchaseKeepsStockBalance`, `RecordPurchaseIgnoresRandom`, `BankTransferRefused` and `ItemPricesIgnored` |
| StockPurchases.RecordPurchaseEffect | backend/routes/stock-purchases.js:71-268 | a refused request changes nothing and has the status of its error; an accepted one answers 201 with the request's own invoice number and stores the invoice under the next id with the rounded amounts and no due date; it appends, per item in order, the entry row for it (next id, the invoice, product, units, date, method, vendor, clock, and expiry date when tracked); the products keep their keys, each product's stock rises by the units received for it, only stock and expiry date change, and an untracked product keeps its expiry date; sales and payments are untouched |
| StockPurchases.AdmittedReceipt | backend/routes/stock-purchases.js:184-243 | committing the loop's result appends exactly the item rows after the old entries, and raises each product's stock by its received units with only stock and expiry date changed |
| StockPurchases.RecordPurchaseExpiry | backend/routes/stock-purchases.js:196-243 | after an accepted purchase a tracked product's expiry date is the last item's for it, and a product no item names keeps its whole row |
| StockPurchases.RecordPurchaseIgnoresRandom | backend/routes/stock-purchases.js:142 | the result never depends on the random draw, because the generated number is never used |
| StockPurchases.BankTransferRefused | backend/routes/stock-purchases.js:137-140 | a bank transfer purchase is never recorded and changes nothing |
| StockPurchases.CheckedPaymentSplit | backend/routes/stock-purchases.js:88-140 | a request that passes the checks has a numeric total and a payment split that succeeded |
| StockPurchases.CheckPurchaseItems | backend/routes/stock-purchases.js:116 | every item that passes the checks adds a positive number of units |
| StockPurchases.RecordPurchaseConsistent | backend/routes/stock-purchases.js:174-247 | recording a purchase keeps the tables consistent |
| StockPurchases.AppendPurchaseConsistent | backend/routes/stock-purchases.js:174-231 | storing the invoice under the next id, with entries pointing at it and the next entry ids, keeps the tables consistent |
| StockPurchases.RecordPurchaseKeepsStockBalance | backend/routes/stock-purchases.js:225-243 | the difference between a product's entry total and its stock does not change |
| StockPurchases.PayPurchaseCredit | backend/routes/stock-purchases.js:377-465 | the tables after a purchase credit payment and the reply. Stated by `PayPurchaseCreditEffect`, `PayPurchaseCreditExceeds`, `PayPurchaseCreditRefused` and `PayPurchaseCreditConsistent` |
| StockPurchases.PayPurchaseCreditEffect | backend/routes/stock-purchases.js:377-445 | a refused payment changes nothing; an accepted one moves the amount from the rounded credit to the rounded paid amount, returns the non-negative credit left, keeps the due date, records the payment date, logs the payment, and touches no other invoice |
| StockPurchases.PayPurchaseCreditExceeds | backend/routes/stock-purchases.js:418-424 | a valid payment is refused with 400 for exceeding the credit if and only if it is above the rounded credit |
| StockPurchases.PayPurchaseCreditRefused | backend/routes/stock-purchases.js:377-424 | a refused payment changes nothing; in the handler's order, 400 `InvalidAmount` exactly for an amount that is not a number above 0, 400 for a missing date exactly when the amount is valid, 500 exactly for an id `parseInt` cannot read, 404 exactly for an unknown invoice, and status 400 exactly for those two checks or an amount above the credit |
| StockPurchases.PayPurchaseCreditConsistent | backend/routes/stock-purchases.js:430-441 | paying purchase credit keeps the tables consistent |
| StockPurchases.ItemPricesIgnored | backend/routes/stock-purchases.js:30-56 | repricing every line item leaves the recorded purchase and the response as they were, so the caller's total is never compared with the items |
| Stock.ProductKey | backend/routes/stock.js:65-69 | a product found for the request's id is one of the stored products |
| Stock.AddStockEntryHandler | backend/routes/stock.js:37-130 | the new tables and the response are those the adding-an-entry function gives for the old tables |
| Stock.AddStockEntry | backend/routes/stock.js:37-130 | the tables after `POST /stock-entries` and the reply. Stated by `AddStockEntryRefusals`, `AddStockEntryRequirements`, `AddStockEntryAccepts`, `AddStockEntryEffect`, `AddStockEntryConsistent` and `AddStockEntryWidensGap` |
| Stock.AddStockEntryRefusals | backend/routes/stock.js:52-69 | every refusal leaves the tables unchanged; a missing essential field or an out-of-range amount is a 400; the answer is 404 exactly when those checks pass and no product has the id |
| Stock.AddStockEntryRequirements | backend/routes/stock.js:52-93 | an accepted entry had its essential fields, amounts in range, a known product, an expiry date for a product that tracks expiry, a due date for the credit methods, transfer details for a bank transfer, and a vendor id that parses |
| Stock.AddStockEntryAccepts | backend/routes/stock.js:52-116 | a request that passes every check is answered 201 with the next entry id |
| Stock.AddStockEntryEffect | backend/routes/stock.js:95-116 | an accepted entry is appended under the next id with the request's product, amounts and dates; the expiry only for an expiry-tracked product, the due date only for the credit methods, the transfer details only for a bank transfer; no other table changes |
| Stock.AddStockEntryConsistent | backend/routes/stock.js:95-116 | adding an entry keeps the tables consistent |
| Stock.WithEntryConsistent | backend/routes/stock.js:95-113 | a new entry with the next id and no invoice keeps the tables consistent |
| Stock.AddStockEntryWidensGap | backend/routes/stock.js:95-113 | an entry added here raises the product's entry sum by its units and leaves the product's stock column as it was |
| Stock.AddStockEntryShowsInAggregate | backend/routes/stock.js:7-34 | whole units added here show in the aggregated stock, which then parts from the product's stock column |
| Stock.UpdateStockEntryHandler | backend/routes/stock.js:133-151 | the new tables and the response are those the correction function gives for the old tables |
| Stock.ReviseRows | backend/routes/stock.js:137-145 | the pass over the table rewrites exactly the matching rows, and the affected count is 0 exactly when no row has the id |
| Stock.UpdateStockEntry | backend/routes/stock.js:133-151 | the tables after a stock entry correction and the reply. Stated by `UpdateStockEntryEffect`, `UpdateStockEntryIdempotent` and `UpdateStockEntryConsistent` |
| Stock.UpdateStockEntryEffect | backend/routes/stock.js:137-146 | 404 with nothing changed exactly when no entry has the id; otherwise matching entries get numeric prices (0 for unparsable text) and a null expiry when none is sent, and everything else is unchanged |
| Stock.UpdateStockEntryIdempotent | backend/routes/stock.js:137-146 | sending the same correction twice leaves the tables as sending it once |
| Stock.UpdateStockEntryConsistent | backend/routes/stock.js:137-146 | a correction keeps the tables consistent |
| Stock.ReviseKeepsStockSum | backend/routes/stock.js:137-141 | a correction does not change any product's entry sum |
| Stock.NewerChain | backend/routes/stock.js:161 | the order by purchase date, then creation time, descending, is consistent: "not newer" chains through "newer" |
| Stock.LatestIsNewest | backend/routes/stock.js:157-164 | the lookup finds an entry exactly when the product has one, and it finds one of the product's entries that no other entry of the product precedes |
| Stock.RecentPrices | backend/routes/stock.js:154-177 | a product's most recent purchase and sell prices. Stated by `RecentPricesFallback`, `NormalizedPrices` and `RecentPricesAreNewest` |
| Stock.RecentPricesFallback | backend/routes/stock.js:154-177 | the answer is 200 exactly when the product has an entry or exists, 404 otherwise; the row holds the two prices, each a number or null |
| Stock.NormalizedPrices | backend/routes/stock.js:175-177 | a prices row read back through the normaliser holds exactly the two prices, each a number or null |
| Stock.RecentPricesAreNewest | backend/routes/stock.js:157-177 | when the product has entries, the prices answered are those of its newest entry by purchase date, then creation time |
| Stock.AggregatedStock | backend/routes/stock.js:7-34 | a product's stock as the listing aggregates it from its entries. Stated by `AggregatedStockIsSum`, `AggregatedStockValue`, `AggregateShift`, `NonNegativeStockSum` and `AddStockEntryShowsInAggregate` |
| Stock.NonNegativeStockSum | backend/routes/stock.js:17 | entries of non-negative units sum to a non-negative stock |
| Stock.NoEntriesSumToZero | backend/routes/stock.js:17 | a product without entries sums to 0 |
| Stock.AggregatedStockIsSum | backend/routes/stock.js:7-29 | the aggregated stock is the entries' sum cut to a whole number, 0 without entries, and between 0 and the sum when no entry takes stock away |
| Stock.AggregateShift | backend/routes/stock.js:17-28 | adding whole units to a non-negative sum adds them to the aggregated stock |
| Stock.AggregatedStockValue | backend/routes/stock.js:17-28 | the aggregated stock is the entries' sum truncated to an integer, as the normaliser's `parseInt` reads it |
| SellScreen.IndexOf | src/Sell.js:177 | the position found is the first line for the product, and None means no line is for it |
| SellScreen.FindProduct | src/Sell.js:201 | the product found is in the list with the id, and None means no listed product has it |
| SellScreen.SellForm.constructor | src/Sell.js:36-48 | the screen opens with the fetched products, an empty cart and the initial sale fields |
| SellScreen.SellForm.AddToCart | src/Sell.js:144-193 | the new cart is the add-to-cart function of the old one, the cart stays valid, and the sale fields are unchanged |
| SellScreen.SellForm.RemoveFromCart | src/Sell.js:195-197 | the new cart is the old one without the product's lines, and it stays valid |
| SellScreen.SellForm.UpdateQuantity | src/Sell.js:199-229 | the new cart is the quantity-update function of the old one, and it stays valid |
| SellScreen.SellForm.HandlePaymentTypeChange | src/Sell.js:239-263 | the new sale fields are those the payment-type function gives for the cart's total |
| SellScreen.SellForm.HandleAmountPaidChange | src/Sell.js:265-272 | the new sale fields are those the amount-paid function gives for the cart's total |
| SellScreen.SellForm.AddSale | src/Sell.js:297-364 | the result is the body the submit function gives for the cart and sale fields, or why it stops |
| SellScreen.AddedToCart | src/Sell.js:144-193 | the cart after adding a product. Stated by `AddToCartEffect`, `AddedToCartValid`, `ChosenPriceFromLookup` and `UnpricedProductNotAdded` |
| SellScreen.AddToCartEffect | src/Sell.js:144-193 | the cart is unchanged exactly when the product has id 0, its price is refused, it has no stock, or one more unit would exceed the stock; otherwise an existing line gets one more unit at the new price and nothing else changes, or a new line of 1 is appended |
| SellScreen.AddedToCartValid | src/Sell.js:177-192 | adding keeps one line per product, each at an accepted price |
| SellScreen.ChosenPriceFromLookup | src/Sell.js:154-157 | a recent sell price that reads as a positive number is the price taken, and it is accepted |
| SellScreen.UnpricedProductNotAdded | src/Sell.js:156-168 | a product with no positive recent price and no positive price of its own never enters the cart |
| SellScreen.UpdatedQuantity | src/Sell.js:199-229 | the cart after a quantity is typed. Stated by `UpdateQuantityEffect`, `UpdatedQuantityValid` and `ResizedOne` |
| SellScreen.UpdateQuantityEffect | src/Sell.js:199-229 | nothing happens for an unlisted product; text that is not a number removes the line; a number above the stock sets the stock; 1..stock is set exactly; up to 0 resets a line of more than 1 to 1 and removes a line of 1 |
| SellScreen.UpdatedQuantityValid | src/Sell.js:199-229 | changing a quantity keeps one line per product, each at an accepted price |
| SellScreen.ResizedValid | src/Sell.js:209 | setting a product's quantity keeps the cart valid |
| SellScreen.ResizedOne | src/Sell.js:224-228 | in a valid cart, setting a quantity changes just the product's one line |
| SellScreen.WithoutSplits | src/Sell.js:196 | the filter keeps only lines of other products, and what it keeps and drops together are the cart, as a multiset |
| SellScreen.WithoutAppend | src/Sell.js:196 | filtering two runs of lines filters each, keeping their order |
| SellScreen.WithoutAbsent | src/Sell.js:196 | a cart with no line for the product is left as it is |
| SellScreen.WithoutValid | src/Sell.js:196 | removing a product keeps the cart valid |
| SellScreen.WithoutDistinct | src/Sell.js:196 | removing a product keeps the lines' products distinct |
| SellScreen.WithoutOne | src/Sell.js:211 | in a valid cart, removing a product drops just its one line |
| SellScreen.Total | src/Sell.js:231-237 | the cart's total, price times quantity summed. Stated by `TotalAppend`, `TotalPositive` and `TotalWithout` |
| SellScreen.TotalAppend | src/Sell.js:231-237 | the total of two runs of lines is the sum of their totals |
| SellScreen.TotalPositive | src/Sell.js:231-237 | a non-empty cart of positive prices and quantities has a positive total |
| SellScreen.TotalWithout | src/Sell.js:195-197 | removing a product takes its lines' amounts off the total |
| SellScreen.PaymentTypeSplit | src/Sell.js:239-263 | cash puts the whole total in paid, cash and credit puts it all in credit, any other type zeroes both; the due date is cleared and the customer kept |
| SellScreen.AmountPaidSplit | src/Sell.js:265-272 | the entered payment and the credit are never negative and together cover the total, exactly when the payment does not exceed it; a non-negative entry is taken as typed |
| SellScreen.SubmitSale | src/Sell.js:297-364 | the body the sale screen posts, or why it stops. Stated by `SubmitSaleRefusals`, `SubmitSaleSplit` and `PostedSaleRefused` |
| SellScreen.SubmitSaleRefusals | src/Sell.js:297-345 | the screen stops exactly for an empty cart, a refused price, or a total up to 0, and stops for a missing due date only on outstanding cash and credit |
| SellScreen.SubmitSaleSplit | src/Sell.js:322-364 | a posted body lists the cart line by line at the cart's positive total; cash posts it all as paid; cash and credit posts paid plus credit equal to the total, a due date exactly while credit remains, and no transfer details |
| SellScreen.PostedSaleRefused | src/Sell.js:350-364 | whatever the screen posts, the sale route refuses with 400 and changes no table, since the body has no invoice number |
| PurchaseForm.ListedFind | src/components/AddStockPurchaseForm.js:84 | a product found is a listed product with the parsed id |
| PurchaseForm.Plus | src/components/AddStockPurchaseForm.js:125 | the sum is a number exactly when both addends are, and then it is their sum |
| PurchaseForm.PurchaseFormState.constructor | src/components/AddStockPurchaseForm.js:5-30 | the form opens with every product available, cash, nothing paid, today's date and no rows |
| PurchaseForm.PurchaseFormState.ChangeInvoiceField | src/components/AddStockPurchaseForm.js:43-69 | the named field takes the input; a vendor change also runs the vendor filter on the products and the rows |
| PurchaseForm.PurchaseFormState.ChangeProductField | src/components/AddStockPurchaseForm.js:71-99 | only the indexed row changes, and it becomes what the row-change function gives |
| PurchaseForm.PurchaseFormState.AddProductRow | src/components/AddStockPurchaseForm.js:101-115 | a blank row is appended and nothing else changes |
| PurchaseForm.PurchaseFormState.RemoveProductRow | src/components/AddStockPurchaseForm.js:117-122 | the row at the index is removed, if there is one, and nothing else changes |
| PurchaseForm.PurchaseFormState.Submit | src/components/AddStockPurchaseForm.js:128-153 | the body is the payload function of the form |
| PurchaseForm.VendorFiltered | src/components/AddStockPurchaseForm.js:43-64 | the available products and the kept rows after a vendor is chosen. Stated by `VendorProductsExact`, `SuppliedRowsExact`, `VendorFilterIdempotent` and `NoVendorShowsAll` |
| PurchaseForm.VendorProductsExact | src/components/AddStockPurchaseForm.js:44-49 | the available products are exactly the listed products of the chosen vendor |
| PurchaseForm.SuppliedRowsExact | src/components/AddStockPurchaseForm.js:51-60 | a row is kept exactly when a product of the vendor has its id; no row is added, and rows all of the vendor are kept as they are |
| PurchaseForm.VendorFilterIdempotent | src/components/AddStockPurchaseForm.js:43-64 | running the vendor filter again changes nothing |
| PurchaseForm.NoVendorShowsAll | src/components/AddStockPurchaseForm.js:61-63 | with no vendor every product is available and every row is kept |
| PurchaseForm.RowChanged | src/components/AddStockPurchaseForm.js:71-99 | one product row after a field changes. Stated by `RowChangedEffect` and `UnlistedProductPricesZero` |
| PurchaseForm.RowChangedEffect | src/components/AddStockPurchaseForm.js:71-99 | a numeric field becomes a number, 0 for unparsable text; other fields take the input; choosing a product takes the looked-up prices unless they are null, and the listed product's prices when the lookup fails |
| PurchaseForm.UnlistedProductPricesZero | src/components/AddStockPurchaseForm.js:88-94 | without a listed product of that id the fallback prices are 0 |
| PurchaseForm.BillTotal | src/components/AddStockPurchaseForm.js:124-126 | the bill total over the rows, NaN when a row's amount is. Stated by `BillTotalAppend`, `BillTotalSnoc`, `BlankRowAddsNothing` and `RemovedRowTotal` |
| PurchaseForm.BillTotalAppend | src/components/AddStockPurchaseForm.js:124-126 | the total of two runs of rows is the sum of their totals, NaN when either is |
| PurchaseForm.BillTotalSnoc | src/components/AddStockPurchaseForm.js:125 | one more row adds its amount to the total |
| PurchaseForm.BlankRowAddsNothing | src/components/AddStockPurchaseForm.js:101-126 | a blank row leaves the total as it was |
| PurchaseForm.RemovedRowTotal | src/components/AddStockPurchaseForm.js:117-126 | removing a row takes its amount off a total that is a number |
| PurchaseForm.RowRemovedKeepsOthers | src/components/AddStockPurchaseForm.js:120 | removing a row keeps the other rows in order |
| PurchaseForm.Payload | src/components/AddStockPurchaseForm.js:128-153 | the body the purchase form posts. Stated by `PayloadSplit`, `PayloadAgreesWithRouteSplit`, `PostedPurchaseRefused` and `BankTransferPostRefused` |
| PurchaseForm.PayloadSplit | src/components/AddStockPurchaseForm.js:132-153 | cash and bank transfer post the total as paid, credit posts 0, cash and credit the amount entered; the due date goes only with the credit methods, the transfer details only with a bank transfer |
| PurchaseForm.PayloadAgreesWithRouteSplit | src/components/AddStockPurchaseForm.js:132-153 | whenever the route's payment switch accepts the posted method, total and amount, its paid part is the amount the form posts; cash and credit always pass the switch with the expected parts, and a bank transfer, which the form offers, never does |
| PurchaseForm.PostedPurchaseRefused | src/components/AddStockPurchaseForm.js:145-158 | whatever the form posts, the purchase route refuses with 400 before touching any table, since the body has no invoice number |
| PurchaseForm.BankTransferPostRefused | src/components/AddStockPurchaseForm.js:139-158 | even with an invoice number added, a bank-transfer purchase the form posts is refused and changes nothing |
| PurchaseCreditModal.PayCreditDialog.constructor | src/components/PayCreditModal.js:6-18 | the dialog opens with the whole outstanding credit as the amount, today's date, not partial and no new due date |
| PurchaseCreditModal.PayCreditDialog.ChangeAmount | src/components/PayCreditModal.js:21-77 | the amount takes the input and the partial flag follows it |
| PurchaseCreditModal.PayCreditDialog.ChangePaymentDate | src/components/PayCreditModal.js:93 | the date takes the input and nothing else changes |
| PurchaseCreditModal.PayCreditDialog.ChangeNewDueDate | src/components/PayCreditModal.js:109 | the new due date takes the input and nothing else changes |
| PurchaseCreditModal.PayCreditDialog.Submit | src/components/PayCreditModal.js:25-52 | the result is the body the submission function gives for the dialog's fields, or why it refuses |
| PurchaseCreditModal.Submission | src/components/PayCreditModal.js:25-52 | the body the purchase dialog sends, or why it refuses. Stated by `SubmissionSpec`, `DateNotChecked`, `SentWithinCredit` and `AcceptedPaymentSettles` |
| PurchaseCreditModal.SubmissionSpec | src/components/PayCreditModal.js:30-52 | the dialog sends exactly when the amount is a number above 0 within the credit and a partial payment has a new due date; the body holds the amount, the date, and the new due date exactly for a partial payment |
| PurchaseCreditModal.OpeningAmountPaysAll | src/components/PayCreditModal.js:6-52 | sending the dialog as it opens pays the whole credit with no new due date, and is refused when nothing is outstanding |
| PurchaseCreditModal.DateNotChecked | src/components/PayCreditModal.js:25-52 | whether the dialog sends does not depend on the payment date |
| PurchaseCreditModal.SentWithinCredit | src/components/PayCreditModal.js:30-52 | a sent body pays a positive amount within the credit, on the given date |
| PurchaseCreditModal.PaymentWithinCreditSettles | backend/routes/stock-purchases.js:377-445 | a payment of a positive amount within a stored credit, with a date, is answered 200 with the rest, which is stored, and the due date is kept |
| PurchaseCreditModal.AcceptedPaymentSettles | src/components/PayCreditModal.js:45-54 | a payment the dialog sends for the credit it was shown, with a date, is accepted by the route: the credit drops by the amount, never below 0, and the due date is kept |
| PurchaseCreditModal.ClearedDateRefused | src/components/PayCreditModal.js:45-54 | a payment sent after the date was cleared passes the dialog and is refused by the route with 400, changing nothing |
| SaleCreditModal.PayCreditDialog.constructor | src/components/PayCreditModalSell.js:11-14 | the dialog opens for the invoice with an empty amount, today's date and no new due date |
| SaleCreditModal.PayCreditDialog.ChangeAmount | src/components/PayCreditModalSell.js:105 | the amount takes the input and nothing else changes |
| SaleCreditModal.PayCreditDialog.ChangePaymentDate | src/components/PayCreditModalSell.js:115 | the date takes the input and nothing else changes |
| SaleCreditModal.PayCreditDialog.ChangeNewDueDate | src/components/PayCreditModalSell.js:125 | the new due date takes the input and nothing else changes |
| SaleCreditModal.PayCreditDialog.Submit | src/components/PayCreditModalSell.js:26-53 | the result is the body the submission function gives for the dialog's fields, or why it refuses |
| SaleCreditModal.Submission | src/components/PayCreditModalSell.js:26-53 | the body the sale dialog sends, or why it refuses. Stated by `SubmissionSpec`, `OpeningFormRefused`, `MissingCreditUnbounded`, `SentWithinCredit` and `AcceptedPaymentSettles` |
| SaleCreditModal.SubmissionSpec | src/components/PayCreditModalSell.js:33-51 | the dialog sends exactly when the record id is set, the amount is a number above 0 within the credit, and a date is given; a missing record id is reported as such; the body holds them, and the new due date exactly when one is given |
| SaleCreditModal.OpeningFormRefused | src/components/PayCreditModalSell.js:12-40 | the dialog as it opens refuses to send, since the amount is empty |
| SaleCreditModal.MissingCreditUnbounded | src/components/PayCreditModalSell.js:37-40 | for an invoice with no credit amount the dialog puts no upper bound on the amount |
| SaleCreditModal.SentWithinCredit | src/components/PayCreditModalSell.js:33-51 | a sent body carries the record id, a positive amount the shown credit covers, and a date |
| SaleCreditModal.PaymentWithinCreditSettles | backend/routes/credit.js:39-117 | a payment of a positive amount within the stored credit, with a date, is answered 200 with the rest, never below 0, which is stored; the due date becomes the new one, is cleared when paid off, or is kept |
| SaleCreditModal.AcceptedPaymentSettles | src/components/PayCreditModalSell.js:45-53 | a payment the dialog sends for a stored invoice's credit is accepted by the route and settles as above, so a partial payment sent without a new due date keeps the old one |

## Left out

- HTTP, Express and React plumbing is not modelled. That covers routing, `res.status(...).json(...)`, hooks and effect scheduling, axios calls, snackbars, loading and error messages, and the HTML `required` attributes of the inputs. Handlers return a tagged reply, and components return the body they would post.
- The connection pool, the retry helpers, row locking and concurrency are not modelled: each handler runs alone and atomically.
- A thrown database error (the 500 paths) is not modelled, except a statement the server rejects because a parameter is NaN (`Stock.AddStockEntry`'s vendor id). The duplicate-entry 409 of `POST /stock-entries` is not modelled, because the model's tables have no unique keys besides ids.
- The clock and `Math.random()` are parameters (`now`, `random`, `today`). The `created_at` and `NOW()` columns take `now`.
- IEEE floating point is replaced by exact reals. `toFixed(2)` rounds half away from zero on the exact value, and `parseFloat` reads decimal text without exponents, hexadecimal, `Infinity` or signs other than a leading one.
- `Js.ToNumber` reads text only in plain decimal form. `Number` also accepts an exponent (`"1e3"` is 1000), a `0x`, `0b` or `0o` prefix and `Infinity`, which the model reads as NaN. Every check built on it, such as the purchase route's total check (`backend/routes/stock-purchases.js:88`), therefore refuses such text where the source accepts it.
- `Js.ParseInt` reads only decimal digits, as `parseInt(v, 10)` does in the customer listing. The other call sites pass no radix (the purchase route's vendor and item fields, the purchase pay-credit id, the stock entry's vendor id, the sale screen's quantity and the purchase form's fields). There, text starting with `0x` reads as hexadecimal (`"0x10"` is 16), while the model reads it as 0.
- `Sales.SaleLine` holds an integer product id and quantity. The route takes whatever JSON each line carries: a missing, null or non-numeric quantity passes the stock check (`stock < undefined` is false), and text or fractional quantities go through JavaScript's coercions before being subtracted and stored. The model covers lines with integer ids and quantities only.
- The database's coercion of a bound value to its column type is not modelled: columns hold the value the handler bound. Readers apply the source's own normaliser. Dates are compared as text, or as moments in the customer listing.
- The NaN guard after `parseFloatOrDefault` in the purchase route cannot fire, because that function never returns NaN. It is therefore not a separate branch.
- The read-only listings and reports are not modelled: the GET routes of `sales.js` and `stock-purchases.js`, reports, and vendor, customer and product CRUD. Neither are the deprecated credit routes of `credit.js` or PDF generation (`/generate-bill`, jsPDF).
- `Credit.CustomerSaleInvoices` returns the set of invoices listed. The listing's order (newest first) and the columns of each row are not part of its result.
- In the sale screen, `fetchProducts` (the list's price refresh and the cart repricing it does), `generateBill`, `addCustomer` and the due-date picker are not modelled. The due date is carried as the value the screen holds; `toISOString` formatting is not modelled.
- `SellScreen.SellForm.UpdateQuantity`: a number up to 0 for a product with no line in the cart throws in the source; the model leaves the cart unchanged.
- `PurchaseForm.PurchaseFormState.ChangeProductField` requires an index of an existing row. The source would create a new element at an out-of-range index, and the form never passes one.
- The purchase form's mount fetch is modelled as the catalogue its constructor takes. The recent-price request is modelled as the `lookup` parameter, either its two prices or None when it failed.
- `SaleCreditModal.PayCreditDialog.constructor` does not model the mount effect's error message for an invoice without a record id; `Submit` refuses such an invoice.
- The pay-credit dialogs do not model the loading flag or the `onSuccess`/`onClose` callbacks.
