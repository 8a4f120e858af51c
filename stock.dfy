/** The stock routes: adding a single stock entry (`POST /stock-entries`), correcting an
    entry's prices and expiry (`PUT /stock-entries/:id`), the most recent prices of a
    product (`GET /stock-entries/recent/:productId`) and the aggregated stock of a product
    (`GET /`). */
module Stock {
  import opened Js
  import opened Ledger
  import opened Utils

  /** The body of `POST /stock-entries` */
  datatype EntryRequest = EntryRequest(
    productId: Value,
    addedStock: Value,
    purchasePrice: Value,
    sellPrice: Value,
    purchaseDate: Value,
    expiryDate: Value,
    paymentMethod: Value,
    creditDueDate: Value,
    transactionId: Value,
    bankName: Value,
    vendorId: Value)

  datatype EntryError =
    | MissingEssentialFields
    | NonPositiveAmounts
    | ProductNotFound
    | ExpiryRequired
    | DueDateRequired
    | BankDetailsRequired
    | EntryNotFound
    | StatementRejected

  // ------------------------------------------------------------------ adding an entry

  /** Every field the handler calls essential is truthy */
  predicate EssentialPresent(req: EntryRequest)
  {
    && Truthy(req.productId) && Truthy(req.addedStock) && Truthy(req.purchasePrice)
    && Truthy(req.sellPrice) && Truthy(req.purchaseDate) && Truthy(req.paymentMethod)
  }

  /** `added_stock <= 0 || purchase_price < 0 || sell_price < 0`, with JavaScript's comparisons */
  predicate OutOfRange(req: EntryRequest)
  {
    LessEq(req.addedStock, Num(0.0)) || Less(req.purchasePrice, Num(0.0)) || Less(req.sellPrice, Num(0.0))
  }

  predicate IsCreditPayment(pay: Value)
  {
    pay == Str("credit") || pay == Str("cash_and_credit")
  }

  predicate IsBankTransfer(pay: Value)
  {
    pay == Str("bank_transfer")
  }

  /** The product `WHERE id = ?` finds */
  function ProductKey(s: Db, id: Value): (r: Option<int>)
    ensures r.Some? ==> r.value in s.products
  {
    match AsKey(id)
    case Some(k) => if k in s.products then Some(k) else None
    case None => None
  }

  /** `vendor_id ? parseInt(vendor_id) : null`; the outer None is a NaN, which the driver
      writes into the statement as the bare word NaN, and the server rejects */
  function VendorOf(v: Value): Option<Option<int>>
  {
    if !Truthy(v) then Some(None)
    else match ParseInt(v)
      case Some(n) => Some(Some(n))
      case None => None
  }

  /** The tables after the request, and the response: the new entry's id on success */
  function AddStockEntry(s: Db, req: EntryRequest, now: nat): (Db, Reply<int, EntryError>)
  {
    if !EssentialPresent(req) then (s, Refused(400, MissingEssentialFields))
    else if OutOfRange(req) then (s, Refused(400, NonPositiveAmounts))
    else match ProductKey(s, req.productId)
      case None => (s, Refused(404, ProductNotFound))
      case Some(k) =>
        var tracks := s.products[k].tracksExpiry;
        var pay := req.paymentMethod;
        if tracks && !Truthy(req.expiryDate) then (s, Refused(400, ExpiryRequired))
        else if IsCreditPayment(pay) && !Truthy(req.creditDueDate) then (s, Refused(400, DueDateRequired))
        else if IsBankTransfer(pay) && (!Truthy(req.transactionId) || !Truthy(req.bankName)) then
          (s, Refused(400, BankDetailsRequired))
        else match VendorOf(req.vendorId)
          case None => (s, Refused(500, StatementRejected))
          case Some(vendor) =>
            (WithEntry(s, NewEntry(s.nextEntryId, k, tracks, req, vendor, now)), Done(201, s.nextEntryId))
  }

  /** The row the INSERT writes: the expiry only for a product that tracks it, the due date
      only for the credit methods, the transfer details only for a bank transfer */
  function NewEntry(id: int, product: int, tracks: bool, req: EntryRequest, vendor: Option<int>, now: nat): StockEntry
  {
    var pay := req.paymentMethod;
    StockEntry(
      id, None, product, req.addedStock, req.purchasePrice, req.sellPrice, req.purchaseDate,
      if tracks then req.expiryDate else Null,
      pay,
      if IsCreditPayment(pay) then req.creditDueDate else Null,
      if IsBankTransfer(pay) then req.transactionId else Null,
      if IsBankTransfer(pay) then req.bankName else Null,
      vendor, now)
  }

  /** The tables with one more stock entry, which takes the next id */
  function WithEntry(s: Db, e: StockEntry): Db
  {
    s.(entries := s.entries + [e], nextEntryId := s.nextEntryId + 1)
  }

  /** The route handler; `now` is the row's `created_at` */
  method AddStockEntryHandler(db: Database, req: EntryRequest, now: nat) returns (reply: Reply<int, EntryError>)
    modifies db
    ensures (db.State(), reply) == AddStockEntry(old(db.State()), req, now)
  {
    if !EssentialPresent(req) {
      return Refused(400, MissingEssentialFields);
    }
    if OutOfRange(req) {
      return Refused(400, NonPositiveAmounts);
    }
    var s := db.State();
    var key := ProductKey(s, req.productId);
    if key.None? {
      return Refused(404, ProductNotFound);
    }
    var k := key.value;
    var tracks := s.products[k].tracksExpiry;
    if tracks && !Truthy(req.expiryDate) {
      return Refused(400, ExpiryRequired);
    }
    var expiry := if tracks then req.expiryDate else Null;
    var isCredit := IsCreditPayment(req.paymentMethod);
    if isCredit && !Truthy(req.creditDueDate) {
      return Refused(400, DueDateRequired);
    }
    var due := if isCredit then req.creditDueDate else Null;
    var isBank := IsBankTransfer(req.paymentMethod);
    if isBank && (!Truthy(req.transactionId) || !Truthy(req.bankName)) {
      return Refused(400, BankDetailsRequired);
    }
    var transaction := if isBank then req.transactionId else Null;
    var bank := if isBank then req.bankName else Null;
    var vendor := VendorOf(req.vendorId);
    if vendor.None? {
      return Refused(500, StatementRejected);
    }
    var id := s.nextEntryId;
    var entry := StockEntry(id, None, k, req.addedStock, req.purchasePrice, req.sellPrice, req.purchaseDate,
                            expiry, req.paymentMethod, due, transaction, bank, vendor.value, now);
    assert entry == NewEntry(id, k, tracks, req, vendor.value, now);
    db.Commit(WithEntry(s, entry));
    reply := Done(201, id);
  }

  /** Every refusal leaves the tables as they were. A missing essential field or an amount
      out of range is a 400 before the product is looked up, and the answer is 404 exactly
      when those pass and no product has the given id. */
  lemma AddStockEntryRefusals(s: Db, req: EntryRequest, now: nat)
    ensures var (t, reply) := AddStockEntry(s, req, now);
      && (reply.Refused? ==> t == s)
      && (!EssentialPresent(req) || OutOfRange(req) ==> reply.Refused? && reply.status == 400)
      && (reply.Refused? && reply.status == 404 <==>
            EssentialPresent(req) && !OutOfRange(req) && ProductKey(s, req.productId).None?)
  {
  }

  /** An accepted entry passed every guard: essentials present, amounts in range, a known
      product, an expiry date when the product tracks expiry, a due date for the credit
      methods, and the transfer details for a bank transfer */
  lemma AddStockEntryRequirements(s: Db, req: EntryRequest, now: nat)
    requires AddStockEntry(s, req, now).1.Done?
    ensures EssentialPresent(req) && !OutOfRange(req)
    ensures ProductKey(s, req.productId).Some?
    ensures s.products[ProductKey(s, req.productId).value].tracksExpiry ==> Truthy(req.expiryDate)
    ensures IsCreditPayment(req.paymentMethod) ==> Truthy(req.creditDueDate)
    ensures IsBankTransfer(req.paymentMethod) ==> Truthy(req.transactionId) && Truthy(req.bankName)
    ensures Truthy(req.vendorId) ==> ParseInt(req.vendorId).Some?
  {
  }

  /** Conversely, a request that passes every guard is accepted */
  lemma AddStockEntryAccepts(s: Db, req: EntryRequest, now: nat)
    requires EssentialPresent(req) && !OutOfRange(req)
    requires ProductKey(s, req.productId).Some?
    requires s.products[ProductKey(s, req.productId).value].tracksExpiry ==> Truthy(req.expiryDate)
    requires IsCreditPayment(req.paymentMethod) ==> Truthy(req.creditDueDate)
    requires IsBankTransfer(req.paymentMethod) ==> Truthy(req.transactionId) && Truthy(req.bankName)
    requires Truthy(req.vendorId) ==> ParseInt(req.vendorId).Some?
    ensures AddStockEntry(s, req, now).1 == Done(201, s.nextEntryId)
  {
  }

  /** An accepted entry is appended under the next id with the request's product, amounts
      and dates; the expiry is kept only for a product that tracks it, the due date only for
      the credit methods, and the transfer details only for a bank transfer; no other table
      changes */
  lemma AddStockEntryEffect(s: Db, req: EntryRequest, now: nat)
    requires AddStockEntry(s, req, now).1.Done?
    ensures var (t, reply) := AddStockEntry(s, req, now);
      var k := ProductKey(s, req.productId).value;
      && reply.value == s.nextEntryId
      && |t.entries| == |s.entries| + 1 && t.entries[..|s.entries|] == s.entries
      && t.nextEntryId == s.nextEntryId + 1
      && t.(entries := s.entries, nextEntryId := s.nextEntryId) == s
      && var e := t.entries[|s.entries|];
      && e.id == s.nextEntryId && e.invoice.None? && e.product == k && e.createdAt == now
      && e.added == req.addedStock && e.purchasePrice == req.purchasePrice && e.sellPrice == req.sellPrice
      && e.purchaseDate == req.purchaseDate && e.paymentMethod == req.paymentMethod
      && e.expiry == (if s.products[k].tracksExpiry then req.expiryDate else Null)
      && e.dueDate == (if IsCreditPayment(req.paymentMethod) then req.creditDueDate else Null)
      && e.transactionId == (if IsBankTransfer(req.paymentMethod) then req.transactionId else Null)
      && e.bankName == (if IsBankTransfer(req.paymentMethod) then req.bankName else Null)
      && e.vendor == (if Truthy(req.vendorId) then Some(ParseInt(req.vendorId).value) else None)
  {
    var t := AddStockEntry(s, req, now).0;
    assert t.entries[..|s.entries|] == s.entries;
  }

  /** Adding an entry keeps the tables consistent */
  lemma AddStockEntryConsistent(s: Db, req: EntryRequest, now: nat)
    requires Consistent(s)
    ensures Consistent(AddStockEntry(s, req, now).0)
  {
    if AddStockEntry(s, req, now).1.Done? {
      var k := ProductKey(s, req.productId).value;
      var vendor := VendorOf(req.vendorId).value;
      var e := NewEntry(s.nextEntryId, k, s.products[k].tracksExpiry, req, vendor, now);
      assert AddStockEntry(s, req, now).0 == WithEntry(s, e);
      WithEntryConsistent(s, e);
    }
  }

  /** A new entry that takes the next id and names no invoice keeps the tables consistent */
  lemma WithEntryConsistent(s: Db, e: StockEntry)
    requires Consistent(s) && e.id == s.nextEntryId && e.invoice.None?
    ensures Consistent(WithEntry(s, e))
  {
    var t := WithEntry(s, e);
    forall i | 0 <= i < |t.entries|
      ensures t.entries[i].id < t.nextEntryId
      ensures t.entries[i].invoice.Some? ==> t.entries[i].invoice.value in t.purchases
    {
      if i < |s.entries| {
        assert t.entries[i] == s.entries[i];
      }
    }
  }

  /** The gap between a product's entries and its stock column: a purchase invoice keeps it
      (both rise by the same amount), but an entry added here raises the entries' sum by its
      units and leaves the product's stock as it was */
  lemma AddStockEntryWidensGap(s: Db, req: EntryRequest, now: nat, units: real)
    requires AddStockEntry(s, req, now).1.Done?
    requires req.addedStock == Num(units)
    ensures var t := AddStockEntry(s, req, now).0;
      var k := ProductKey(s, req.productId).value;
      && k in t.products && t.products[k].stock == s.products[k].stock
      && units > 0.0
      && StockSum(t.entries, k) == StockSum(s.entries, k) + units
  {
    var t := AddStockEntry(s, req, now).0;
    var k := ProductKey(s, req.productId).value;
    AddStockEntryEffect(s, req, now);
    assert t.entries == s.entries + [t.entries[|s.entries|]];
    StockSumAppend(s.entries, [t.entries[|s.entries|]], k);
  }

  // ------------------------------------------------------------------ correcting an entry

  /** The body of `PUT /stock-entries/:id` */
  datatype EntryUpdate = EntryUpdate(purchasePrice: Value, sellPrice: Value, expiryDate: Value)

  /** An entry after the update: the prices through `parseFloat(x) || 0`, the expiry
      through `x || null` */
  function Revised(e: StockEntry, req: EntryUpdate): StockEntry
  {
    e.(purchasePrice := Num(ParseFloatOrZero(req.purchasePrice)),
       sellPrice := Num(ParseFloatOrZero(req.sellPrice)),
       expiry := Or(req.expiryDate, Null))
  }

  /** Whether `WHERE id = ?` matches a row */
  predicate Selects(key: Option<int>, e: StockEntry)
  {
    key == Some(e.id)
  }

  /** The entries table after `UPDATE ... WHERE id = ?` */
  function Revise(rows: seq<StockEntry>, key: Option<int>, req: EntryUpdate): (r: seq<StockEntry>)
  {
    seq(|rows|, i requires 0 <= i < |rows| => if Selects(key, rows[i]) then Revised(rows[i], req) else rows[i])
  }

  /** The tables after the request, and the response: 404 when no row matched */
  function UpdateStockEntry(s: Db, id: Value, req: EntryUpdate): (Db, Reply<(), EntryError>)
  {
    var key := AsKey(id);
    if forall i :: 0 <= i < |s.entries| ==> !Selects(key, s.entries[i]) then (s, Refused(404, EntryNotFound))
    else (s.(entries := Revise(s.entries, key, req)), Done(200, ()))
  }

  /** The route handler: the update rewrites the rows it matches and answers 404 when
      `affectedRows` is 0 */
  method UpdateStockEntryHandler(db: Database, id: Value, req: EntryUpdate) returns (reply: Reply<(), EntryError>)
    modifies db
    ensures (db.State(), reply) == UpdateStockEntry(old(db.State()), id, req)
  {
    var s := db.State();
    var revised, affected := ReviseRows(s.entries, AsKey(id), req);
    if affected == 0 {
      return Refused(404, EntryNotFound);
    }
    db.Commit(s.(entries := revised));
    reply := Done(200, ());
  }

  /** The statement's pass over the table: every row it matches is rewritten and counted */
  method ReviseRows(rows: seq<StockEntry>, key: Option<int>, req: EntryUpdate) returns (revised: seq<StockEntry>, affected: nat)
    ensures revised == Revise(rows, key, req)
    ensures affected == 0 <==> forall j :: 0 <= j < |rows| ==> !Selects(key, rows[j])
    ensures affected <= |rows|
  {
    revised, affected := [], 0;
    for i := 0 to |rows|
      invariant |revised| == i && affected <= i
      invariant forall j :: 0 <= j < i ==>
        revised[j] == (if Selects(key, rows[j]) then Revised(rows[j], req) else rows[j])
      invariant affected == 0 <==> forall j :: 0 <= j < i ==> !Selects(key, rows[j])
    {
      if Selects(key, rows[i]) {
        revised := revised + [Revised(rows[i], req)];
        affected := affected + 1;
      } else {
        revised := revised + [rows[i]];
      }
    }
  }

  /** The update answers 404, changing nothing, exactly when no entry has the id. Otherwise
      every entry with that id gets numeric prices (0 for text that does not parse) and a
      null expiry when none was sent, keeping its other columns, and every other entry and
      table is left as it was. */
  lemma UpdateStockEntryEffect(s: Db, id: Value, req: EntryUpdate)
    ensures var (t, reply) := UpdateStockEntry(s, id, req);
      && (reply.Refused? <==> forall i :: 0 <= i < |s.entries| ==> AsKey(id) != Some(s.entries[i].id))
      && (reply.Refused? ==> reply.status == 404 && t == s)
      && t.(entries := s.entries) == s
      && |t.entries| == |s.entries|
      && (forall i :: 0 <= i < |s.entries| && AsKey(id) != Some(s.entries[i].id) ==> t.entries[i] == s.entries[i])
      && (forall i :: 0 <= i < |s.entries| && AsKey(id) == Some(s.entries[i].id) ==>
            var e := t.entries[i];
            && e.(purchasePrice := s.entries[i].purchasePrice, sellPrice := s.entries[i].sellPrice,
                  expiry := s.entries[i].expiry) == s.entries[i]
            && e.purchasePrice.Num? && e.sellPrice.Num?
            && (ParseFloat(req.purchasePrice).None? ==> e.purchasePrice == Num(0.0))
            && (ParseFloat(req.sellPrice).None? ==> e.sellPrice == Num(0.0))
            && (Truthy(req.expiryDate) ==> e.expiry == req.expiryDate)
            && (!Truthy(req.expiryDate) ==> e.expiry == Null))
  {
  }

  /** Sending the same correction twice leaves the tables as sending it once */
  lemma UpdateStockEntryIdempotent(s: Db, id: Value, req: EntryUpdate)
    ensures var t := UpdateStockEntry(s, id, req).0;
      UpdateStockEntry(t, id, req) == (t, UpdateStockEntry(s, id, req).1)
  {
    var (t, reply) := UpdateStockEntry(s, id, req);
    if reply.Done? {
      var i :| 0 <= i < |s.entries| && Selects(AsKey(id), s.entries[i]);
      assert Selects(AsKey(id), t.entries[i]);
      assert Revise(t.entries, AsKey(id), req) == t.entries;
    }
  }

  /** A correction keeps the tables consistent */
  lemma UpdateStockEntryConsistent(s: Db, id: Value, req: EntryUpdate)
    requires Consistent(s)
    ensures Consistent(UpdateStockEntry(s, id, req).0)
  {
    var t := UpdateStockEntry(s, id, req).0;
    forall i | 0 <= i < |t.entries|
      ensures t.entries[i].id < t.nextEntryId
      ensures t.entries[i].invoice.Some? ==> t.entries[i].invoice.value in t.purchases
    {
      assert t.entries[i].id == s.entries[i].id && t.entries[i].invoice == s.entries[i].invoice;
    }
  }

  /** A correction does not change how much stock the entries add up to */
  lemma {:induction false} ReviseKeepsStockSum(rows: seq<StockEntry>, key: Option<int>, req: EntryUpdate, product: int)
    ensures StockSum(Revise(rows, key, req), product) == StockSum(rows, product)
    decreases |rows|
  {
    if rows != [] {
      var n := |rows| - 1;
      var r := Revise(rows, key, req);
      assert r[..n] == Revise(rows[..n], key, req);
      assert r[n].product == rows[n].product && r[n].added == rows[n].added;
      ReviseKeepsStockSum(rows[..n], key, req, product);
    }
  }

  // ------------------------------------------------------------------ recent prices

  /** The text a date column sorts by; anything else sorts first, as NULL does */
  function DateText(v: Value): string
  {
    if v.Str? then v.s else ""
  }

  /** Whether entry a comes before entry b under `ORDER BY purchase_date DESC, created_at DESC` */
  predicate Newer(a: StockEntry, b: StockEntry)
  {
    || TextLess(DateText(b.purchaseDate), DateText(a.purchaseDate))
    || (DateText(a.purchaseDate) == DateText(b.purchaseDate) && a.createdAt > b.createdAt)
  }

  /** The first row of that order among one product's entries (`LIMIT 1`) */
  function Latest(rows: seq<StockEntry>, product: int): Option<StockEntry>
  {
    if rows == [] then None
    else
      var rest := Latest(rows[..|rows| - 1], product);
      var last := rows[|rows| - 1];
      if last.product != product then rest
      else if rest.None? || Newer(last, rest.value) then Some(last)
      else rest
  }

  /** The prices row a lookup reads */
  function PriceRow(purchasePrice: Value, sellPrice: Value): Row
  {
    map["purchase_price" := purchasePrice, "sell_price" := sellPrice]
  }

  /** The response: the newest entry's prices, else the product's own prices, else 404 */
  function RecentPrices(s: Db, productId: Value): Reply<Row, EntryError>
  {
    match AsKey(productId)
    case None => Refused(404, ProductNotFound)
    case Some(k) =>
      match Latest(s.entries, k)
      case Some(e) => Done(200, Normalized(PriceRow(e.purchasePrice, e.sellPrice)))
      case None =>
        if k in s.products then Done(200, Normalized(PriceRow(s.products[k].purchasePrice, s.products[k].sellPrice)))
        else Refused(404, ProductNotFound)
  }

  /** If b is not newer than a, while c is newer than a, then b is not newer than c */
  lemma NewerChain(b: StockEntry, a: StockEntry, c: StockEntry)
    requires !Newer(b, a) && Newer(c, a)
    ensures !Newer(b, c)
  {
    var da, db, dc := DateText(a.purchaseDate), DateText(b.purchaseDate), DateText(c.purchaseDate);
    if TextLess(dc, db) {
      if TextLess(da, dc) {
        TextLessTransitive(da, dc, db);
      }
    }
  }

  /** The lookup finds an entry exactly when the product has one, and what it finds is one
      of the product's entries that no other entry of the product precedes */
  lemma {:induction false} LatestIsNewest(rows: seq<StockEntry>, product: int)
    ensures Latest(rows, product).None? <==> forall i :: 0 <= i < |rows| ==> rows[i].product != product
    ensures Latest(rows, product).Some? ==>
      var e := Latest(rows, product).value;
      && e.product == product
      && (exists i :: 0 <= i < |rows| && rows[i] == e)
      && forall i :: 0 <= i < |rows| && rows[i].product == product ==> !Newer(rows[i], e)
    decreases |rows|
  {
    if rows != [] {
      var n := |rows| - 1;
      var init := rows[..n];
      LatestIsNewest(init, product);
      assert forall i :: 0 <= i < n ==> init[i] == rows[i];
      var rest := Latest(init, product);
      var last := rows[n];
      if last.product == product {
        if rest.None? {
          TextLessIrreflexive(DateText(last.purchaseDate));
        } else if Newer(last, rest.value) {
          TextLessIrreflexive(DateText(last.purchaseDate));
          forall i | 0 <= i < n && rows[i].product == product
            ensures !Newer(rows[i], last)
          {
            assert init[i] == rows[i];
            NewerChain(rows[i], rest.value, last);
          }
        } else {
          var j :| 0 <= j < n && init[j] == rest.value;
          assert rows[j] == rest.value;
        }
      } else if rest.Some? {
        var j :| 0 <= j < n && init[j] == rest.value;
        assert rows[j] == rest.value;
      }
    }
  }

  /** The lookup answers with the prices of the newest entry of the product when it has
      one, with the product's own prices when it has none, and 404 when neither exists;
      the prices it answers with are numbers or null */
  lemma RecentPricesFallback(s: Db, productId: Value)
    ensures var reply := RecentPrices(s, productId);
      && (reply.Done? <==>
            AsKey(productId).Some? &&
            (AsKey(productId).value in s.products ||
             exists i :: 0 <= i < |s.entries| && Some(s.entries[i].product) == AsKey(productId)))
      && (reply.Refused? ==> reply.status == 404)
      && (reply.Done? ==>
            var row := reply.value;
            && row.Keys == {"purchase_price", "sell_price"}
            && (row["purchase_price"].Num? || row["purchase_price"].Null?)
            && (row["sell_price"].Num? || row["sell_price"].Null?))
  {
    if AsKey(productId).Some? {
      var k := AsKey(productId).value;
      LatestIsNewest(s.entries, k);
      match Latest(s.entries, k)
      case None =>
        if k in s.products {
          NormalizedPrices(s.products[k].purchasePrice, s.products[k].sellPrice);
        }
      case Some(e) =>
        var i :| 0 <= i < |s.entries| && s.entries[i] == e;
        assert Some(s.entries[i].product) == AsKey(productId);
        NormalizedPrices(e.purchasePrice, e.sellPrice);
    }
  }

  /** A prices row read back through the normaliser holds two numbers or nulls */
  lemma NormalizedPrices(purchasePrice: Value, sellPrice: Value)
    ensures var row := Normalized(PriceRow(purchasePrice, sellPrice));
      && row.Keys == {"purchase_price", "sell_price"}
      && (row["purchase_price"].Num? || row["purchase_price"].Null?)
      && (row["sell_price"].Num? || row["sell_price"].Null?)
  {
    assert NumericFields[3] == "purchase_price" && NumericFields[4] == "sell_price";
  }

  /** When the product has entries, the prices are those of an entry of the product that no
      other entry of the product precedes in date, then creation time */
  lemma RecentPricesAreNewest(s: Db, productId: Value, i: int)
    requires AsKey(productId).Some?
    requires 0 <= i < |s.entries| && s.entries[i].product == AsKey(productId).value
    ensures RecentPrices(s, productId).Done?
    ensures exists e :: (
      && e in s.entries && e.product == AsKey(productId).value
      && RecentPrices(s, productId).value == Normalized(PriceRow(e.purchasePrice, e.sellPrice))
      && forall j :: 0 <= j < |s.entries| && s.entries[j].product == e.product ==> !Newer(s.entries[j], e))
  {
    var k := AsKey(productId).value;
    LatestIsNewest(s.entries, k);
    var e := Latest(s.entries, k).value;
    var j :| 0 <= j < |s.entries| && s.entries[j] == e;
    assert e in s.entries;
  }

  // ------------------------------------------------------------------ aggregated stock

  /** The `stock` column of the aggregated view for one product: the sum of its entries'
      `added_stock`, 0 without entries, read back through the normaliser */
  function AggregatedStock(s: Db, product: int): Value
  {
    NormalizeField("stock", Num(StockSum(s.entries, product)))
  }

  /** Entries holding non-negative unit counts add up to a non-negative sum */
  lemma {:induction false} NonNegativeStockSum(rows: seq<StockEntry>, product: int)
    requires forall i :: 0 <= i < |rows| && rows[i].product == product ==> Units(rows[i].added) >= 0.0
    ensures StockSum(rows, product) >= 0.0
    decreases |rows|
  {
    if rows != [] {
      var n := |rows| - 1;
      assert forall i :: 0 <= i < n ==> rows[..n][i] == rows[i];
      NonNegativeStockSum(rows[..n], product);
    }
  }

  /** The aggregated stock is 0 for a product without entries, and otherwise the entries'
      sum, cut to a whole number and never negative when no entry takes stock away */
  lemma AggregatedStockIsSum(s: Db, product: int)
    ensures AggregatedStock(s, product) == Num(Trunc(StockSum(s.entries, product)) as real)
    ensures (forall i :: 0 <= i < |s.entries| && s.entries[i].product == product ==> Units(s.entries[i].added) >= 0.0) ==>
      0.0 <= AggregatedStock(s, product).x <= StockSum(s.entries, product)
    ensures (forall i :: 0 <= i < |s.entries| ==> s.entries[i].product != product) ==>
      AggregatedStock(s, product) == Num(0.0)
  {
    AggregatedStockValue(s, product);
    if forall i :: 0 <= i < |s.entries| && s.entries[i].product == product ==> Units(s.entries[i].added) >= 0.0 {
      NonNegativeStockSum(s.entries, product);
    }
    NoEntriesSumToZero(s.entries, product);
  }

  lemma {:induction false} NoEntriesSumToZero(rows: seq<StockEntry>, product: int)
    ensures (forall i :: 0 <= i < |rows| ==> rows[i].product != product) ==> StockSum(rows, product) == 0.0
    decreases |rows|
  {
    if rows != [] {
      var n := |rows| - 1;
      assert forall i :: 0 <= i < n ==> rows[..n][i] == rows[i];
      NoEntriesSumToZero(rows[..n], product);
    }
  }

  /** A whole number of units added here shows in the aggregated stock, which then parts
      from the product's `stock` column */
  lemma AddStockEntryShowsInAggregate(s: Db, req: EntryRequest, now: nat, units: nat)
    requires AddStockEntry(s, req, now).1.Done?
    requires req.addedStock == Num(units as real)
    requires StockSum(s.entries, ProductKey(s, req.productId).value) >= 0.0
    ensures var t := AddStockEntry(s, req, now).0;
      var k := ProductKey(s, req.productId).value;
      && AggregatedStock(t, k).x == AggregatedStock(s, k).x + units as real
      && t.products[k].stock == s.products[k].stock
  {
    AddStockEntryWidensGap(s, req, now, units as real);
    AggregateShift(s, AddStockEntry(s, req, now).0, ProductKey(s, req.productId).value, units);
  }

  /** Adding whole units to a non-negative sum adds them to the aggregated stock */
  lemma AggregateShift(s: Db, t: Db, product: int, units: nat)
    requires StockSum(s.entries, product) >= 0.0
    requires StockSum(t.entries, product) == StockSum(s.entries, product) + units as real
    ensures AggregatedStock(t, product).x == AggregatedStock(s, product).x + units as real
  {
    AggregatedStockValue(s, product);
    AggregatedStockValue(t, product);
    TruncShift(StockSum(s.entries, product), units);
  }

  lemma TruncShift(x: real, n: nat)
    requires x >= 0.0
    ensures Trunc(x + n as real) == Trunc(x) + n
  {
  }

  /** The aggregated stock is the entries' sum truncated to an integer, as `parseInt` reads it */
  lemma AggregatedStockValue(s: Db, product: int)
    ensures AggregatedStock(s, product) == Num(Trunc(StockSum(s.entries, product)) as real)
  {
    assert NumericFields[5] == "stock";
    NormalizeNumber("stock", StockSum(s.entries, product));
  }
}
