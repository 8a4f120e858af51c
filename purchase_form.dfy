/** The form that records a vendor's purchase invoice: the vendor choice that narrows the
    product list, the product rows with their numeric fields, the bill total, and the body it
    posts to `POST /stock-purchases`. The component's state is a class whose methods are
    the event handlers, each proved against a function that says what the new state is. */
module PurchaseForm {
  import opened Js
  import Ledger
  import StockPurchases

  /** A product as `GET /products` lists it */
  datatype ListedProduct = ListedProduct(id: int, vendor: Option<int>, purchasePrice: Value, sellPrice: Value)

  /** One product row of the form */
  datatype ProductRow = ProductRow(
    productId: Value,
    addedStock: Value,
    purchasePrice: Value,
    sellPrice: Value,
    expiryDate: Value)

  const BlankRow := ProductRow(Str(""), Num(0.0), Num(0.0), Num(0.0), Str(""))

  /** The form's fields; `purchaseDate` starts as today's date, a parameter here */
  datatype FormData = FormData(
    vendorId: Value,
    purchaseDate: Value,
    paymentMethod: Value,
    amountPaid: Value,
    creditDueDate: Value,
    transactionId: Value,
    bankName: Value,
    products: seq<ProductRow>)

  /** The invoice fields `handleInvoiceChange` sets by name */
  datatype InvoiceField = VendorField | DateField | MethodField | PaidField | DueDateField | TransactionField | BankField

  /** The row fields `handleProductChange` sets by name */
  datatype RowField = ProductField | AddedField | PurchasePriceField | SellPriceField | ExpiryField

  /** The body `handleSubmit` posts: the form's fields with the total and the adjusted
      payment fields; `totalBillAmount` is None when the total is NaN */
  datatype PurchasePayload = PurchasePayload(
    vendorId: Value,
    purchaseDate: Value,
    paymentMethod: Value,
    amountPaid: Value,
    creditDueDate: Value,
    transactionId: Value,
    bankName: Value,
    products: seq<ProductRow>,
    totalBillAmount: Option<real>)

  // ------------------------------------------------------------------ the vendor filter

  /** `product.vendor_id === parseInt(vendor_id)`: NaN and a null vendor match nothing */
  predicate OfVendor(p: ListedProduct, vendor: Option<int>)
  {
    vendor.Some? && p.vendor == vendor
  }

  /** The products of the chosen vendor, in list order */
  function VendorProducts(all: seq<ListedProduct>, vendor: Option<int>): seq<ListedProduct>
  {
    if all == [] then []
    else (if OfVendor(all[0], vendor) then [all[0]] else []) + VendorProducts(all[1..], vendor)
  }

  /** Some listed product has the row's id and belongs to the vendor */
  predicate Supplied(all: seq<ListedProduct>, productId: Value, vendor: Option<int>)
  {
    exists j :: 0 <= j < |all| && Some(all[j].id) == ParseInt(productId) && OfVendor(all[j], vendor)
  }

  /** The rows kept when a vendor is chosen, in order */
  function SuppliedRows(rows: seq<ProductRow>, all: seq<ListedProduct>, vendor: Option<int>): seq<ProductRow>
  {
    if rows == [] then []
    else (if Supplied(all, rows[0].productId, vendor) then [rows[0]] else []) + SuppliedRows(rows[1..], all, vendor)
  }

  /** The effect that runs when the vendor changes: the available products and the form */
  function VendorFiltered(all: seq<ListedProduct>, form: FormData): (seq<ListedProduct>, FormData)
  {
    if Truthy(form.vendorId) then
      var vendor := ParseInt(form.vendorId);
      (VendorProducts(all, vendor), form.(products := SuppliedRows(form.products, all, vendor)))
    else (all, form)
  }

  // ------------------------------------------------------------------ rows

  /** `handleInvoiceChange`: one invoice field takes the input's value */
  function InvoiceChanged(form: FormData, field: InvoiceField, value: Value): FormData
  {
    match field
    case VendorField => form.(vendorId := value)
    case DateField => form.(purchaseDate := value)
    case MethodField => form.(paymentMethod := value)
    case PaidField => form.(amountPaid := value)
    case DueDateField => form.(creditDueDate := value)
    case TransactionField => form.(transactionId := value)
    case BankField => form.(bankName := value)
  }

  /** The first listed product with the id (`allProducts.find`) */
  function ListedFind(all: seq<ListedProduct>, id: Option<int>): (r: Option<ListedProduct>)
    ensures r.Some? ==> r.value in all && id == Some(r.value.id)
  {
    if all == [] then None
    else if id == Some(all[0].id) then Some(all[0])
    else ListedFind(all[1..], id)
  }

  /** `selectedProduct?.price || 0` */
  function PriceOrZero(selected: Option<ListedProduct>, purchase: bool): Value
  {
    match selected
    case None => Num(0.0)
    case Some(p) => Or(if purchase then p.purchasePrice else p.sellPrice, Num(0.0))
  }

  /** One row after `handleProductChange(index, field, value)`: the three numeric fields
      through `parseFloat(value) || 0`, the others as typed; choosing a product fills the
      prices from the recent-price lookup (`lookup`: its two prices, or None when it failed),
      falling back to the listed product's prices */
  function RowChanged(row: ProductRow, all: seq<ListedProduct>, field: RowField, value: Value,
                      lookup: Option<(Value, Value)>): ProductRow
  {
    var typed := match field
      case ProductField => row.(productId := value)
      case AddedField => row.(addedStock := Num(ParseFloatOrZero(value)))
      case PurchasePriceField => row.(purchasePrice := Num(ParseFloatOrZero(value)))
      case SellPriceField => row.(sellPrice := Num(ParseFloatOrZero(value)))
      case ExpiryField => row.(expiryDate := value);
    if field == ProductField && Truthy(value) then
      var selected := ListedFind(all, ParseInt(value));
      match lookup
      case Some((purchase, sell)) =>
        typed.(purchasePrice := if purchase != Null then purchase else PriceOrZero(selected, true),
               sellPrice := if sell != Null then sell else PriceOrZero(selected, false))
      case None =>
        typed.(purchasePrice := PriceOrZero(selected, true), sellPrice := PriceOrZero(selected, false))
    else typed
  }

  /** `prev.products.filter((_, i) => i !== index)` */
  function RowRemoved(rows: seq<ProductRow>, index: int): seq<ProductRow>
  {
    if 0 <= index < |rows| then rows[..index] + rows[index + 1..] else rows
  }

  /** What one row adds to the bill: `added_stock * purchase_price`; None is NaN */
  function RowAmount(row: ProductRow): Option<real>
  {
    match (ToNumber(row.addedStock), ToNumber(row.purchasePrice))
    case (Some(a), Some(p)) => Some(a * p)
    case _ => None
  }

  /** `calculateTotalBillAmount()`: the `reduce` over the rows; a NaN row makes it NaN */
  function BillTotal(rows: seq<ProductRow>): Option<real>
  {
    if rows == [] then Some(0.0)
    else Plus(BillTotal(rows[..|rows| - 1]), RowAmount(rows[|rows| - 1]))
  }

  /** `+` on two numbers either of which may be NaN */
  function Plus(a: Option<real>, b: Option<real>): (r: Option<real>)
    ensures r.Some? <==> a.Some? && b.Some?
    ensures r.Some? ==> r.value == a.value + b.value
  {
    if a.Some? && b.Some? then Some(a.value + b.value) else None
  }

  // ------------------------------------------------------------------ submitting

  /** A number as `JSON.stringify` writes it: NaN becomes null */
  function Json(x: Option<real>): Value
  {
    match x
    case Some(v) => Num(v)
    case None => Null
  }

  predicate IsCreditMethod(m: Value)
  {
    m == Str("credit") || m == Str("cash_and_credit")
  }

  /** The body `handleSubmit` posts */
  function Payload(form: FormData): PurchasePayload
  {
    var total := BillTotal(form.products);
    var m := form.paymentMethod;
    var paid :=
      if m == Str("cash") || m == Str("bank_transfer") then Json(total)
      else if m == Str("credit") then Num(0.0)
      else form.amountPaid;
    PurchasePayload(
      form.vendorId, form.purchaseDate, m, paid,
      if IsCreditMethod(m) then form.creditDueDate else Null,
      if m == Str("bank_transfer") then form.transactionId else Null,
      if m == Str("bank_transfer") then form.bankName else Null,
      form.products, total)
  }

  /** The posted body as the purchase route reads it: the form sends no invoice number */
  function AsPurchaseRequest(p: PurchasePayload): StockPurchases.PurchaseRequest
  {
    StockPurchases.PurchaseRequest(
      p.vendorId, Undefined, p.purchaseDate, p.paymentMethod, p.amountPaid, Json(p.totalBillAmount),
      Some(seq(|p.products|, i requires 0 <= i < |p.products| =>
        StockPurchases.PurchaseItem(p.products[i].productId, p.products[i].addedStock,
                                    p.products[i].purchasePrice, p.products[i].sellPrice, p.products[i].expiryDate))))
  }

  // ------------------------------------------------------------------ the component

  class PurchaseFormState {
    var allProducts: seq<ListedProduct>
    var availableProducts: seq<ListedProduct>
    var form: FormData

    /** The form once the product list has loaded; no vendor is chosen yet */
    constructor (catalogue: seq<ListedProduct>, today: Value)
      ensures allProducts == catalogue && availableProducts == catalogue
      ensures form == FormData(Str(""), today, Str("cash"), Num(0.0), Str(""), Str(""), Str(""), [])
    {
      allProducts := catalogue;
      availableProducts := catalogue;
      form := FormData(Str(""), today, Str("cash"), Num(0.0), Str(""), Str(""), Str(""), []);
    }

    /** `handleInvoiceChange`, followed by the vendor effect when the vendor changed */
    method ChangeInvoiceField(field: InvoiceField, value: Value)
      modifies this
      ensures field != VendorField ==>
        form == InvoiceChanged(old(form), field, value) && availableProducts == old(availableProducts)
      ensures field == VendorField ==>
        (availableProducts, form) == VendorFiltered(allProducts, InvoiceChanged(old(form), field, value))
      ensures allProducts == old(allProducts)
    {
      form := InvoiceChanged(form, field, value);
      if field == VendorField {
        if Truthy(form.vendorId) {
          var vendor := ParseInt(form.vendorId);
          availableProducts := VendorProducts(allProducts, vendor);
          form := form.(products := SuppliedRows(form.products, allProducts, vendor));
        } else {
          availableProducts := allProducts;
        }
      }
    }

    /** `handleProductChange(index, e)`; `lookup` is what the recent-price request answered */
    method ChangeProductField(index: nat, field: RowField, value: Value, lookup: Option<(Value, Value)>)
      requires index < |form.products|
      modifies this
      ensures form == old(form).(products := old(form.products)[index := RowChanged(old(form.products)[index], allProducts, field, value, lookup)])
      ensures allProducts == old(allProducts) && availableProducts == old(availableProducts)
    {
      var rows := form.products;
      var row := rows[index];
      if field == AddedField {
        row := row.(addedStock := Num(ParseFloatOrZero(value)));
      } else if field == PurchasePriceField {
        row := row.(purchasePrice := Num(ParseFloatOrZero(value)));
      } else if field == SellPriceField {
        row := row.(sellPrice := Num(ParseFloatOrZero(value)));
      } else if field == ProductField {
        row := row.(productId := value);
      } else {
        row := row.(expiryDate := value);
      }
      if field == ProductField && Truthy(value) {
        var selected := ListedFind(allProducts, ParseInt(value));
        if lookup.Some? {
          var (purchase, sell) := lookup.value;
          row := row.(purchasePrice := if purchase != Null then purchase else PriceOrZero(selected, true));
          row := row.(sellPrice := if sell != Null then sell else PriceOrZero(selected, false));
        } else {
          row := row.(purchasePrice := PriceOrZero(selected, true), sellPrice := PriceOrZero(selected, false));
        }
      }
      form := form.(products := rows[index := row]);
    }

    /** `addProductRow()` */
    method AddProductRow()
      modifies this
      ensures form == old(form).(products := old(form.products) + [BlankRow])
      ensures allProducts == old(allProducts) && availableProducts == old(availableProducts)
    {
      form := form.(products := form.products + [BlankRow]);
    }

    /** `removeProductRow(index)` */
    method RemoveProductRow(index: int)
      modifies this
      ensures form == old(form).(products := RowRemoved(old(form.products), index))
      ensures allProducts == old(allProducts) && availableProducts == old(availableProducts)
    {
      form := form.(products := RowRemoved(form.products, index));
    }

    /** `handleSubmit`: the payment fields reassigned by method, then the body */
    method Submit() returns (p: PurchasePayload)
      ensures p == Payload(form)
    {
      var total := BillTotal(form.products);
      var paid := form.amountPaid;
      var due, transaction, bank := form.creditDueDate, form.transactionId, form.bankName;
      var m := form.paymentMethod;
      if m == Str("cash") || m == Str("bank_transfer") {
        paid := Json(total);
      } else if m == Str("credit") {
        paid := Num(0.0);
      }
      p := PurchasePayload(
        form.vendorId, form.purchaseDate, m, paid,
        if m == Str("credit") || m == Str("cash_and_credit") then due else Null,
        if m == Str("bank_transfer") then transaction else Null,
        if m == Str("bank_transfer") then bank else Null,
        form.products, total);
    }
  }

  // ------------------------------------------------------------------ lemmas

  /** The available products are exactly the listed products of the chosen vendor */
  lemma {:induction false} VendorProductsExact(all: seq<ListedProduct>, vendor: Option<int>)
    ensures forall p :: p in VendorProducts(all, vendor) <==> p in all && OfVendor(p, vendor)
  {
    if all != [] {
      VendorProductsExact(all[1..], vendor);
      assert all == [all[0]] + all[1..];
    }
  }

  /** A row is kept exactly when it names a product of the vendor; the kept rows keep their
      order, and a row set is left alone when every row names one */
  lemma {:induction false} SuppliedRowsExact(rows: seq<ProductRow>, all: seq<ListedProduct>, vendor: Option<int>)
    ensures forall r :: r in SuppliedRows(rows, all, vendor) <==> r in rows && Supplied(all, r.productId, vendor)
    ensures |SuppliedRows(rows, all, vendor)| <= |rows|
    ensures (forall i :: 0 <= i < |rows| ==> Supplied(all, rows[i].productId, vendor)) ==>
      SuppliedRows(rows, all, vendor) == rows
  {
    if rows != [] {
      SuppliedRowsExact(rows[1..], all, vendor);
      assert rows == [rows[0]] + rows[1..];
      if forall i :: 0 <= i < |rows| ==> Supplied(all, rows[i].productId, vendor) {
        assert forall i :: 0 <= i < |rows[1..]| ==> rows[1..][i] == rows[i + 1];
      }
    }
  }

  /** Running the vendor effect again changes nothing */
  lemma VendorFilterIdempotent(all: seq<ListedProduct>, form: FormData)
    ensures var (available, f) := VendorFiltered(all, form);
      VendorFiltered(all, f) == (available, f)
  {
    if Truthy(form.vendorId) {
      var kept := SuppliedRows(form.products, all, ParseInt(form.vendorId));
      SuppliedRowsExact(form.products, all, ParseInt(form.vendorId));
      forall i | 0 <= i < |kept| ensures Supplied(all, kept[i].productId, ParseInt(form.vendorId)) {
        assert kept[i] in kept;
      }
      SuppliedRowsExact(kept, all, ParseInt(form.vendorId));
    }
  }

  /** Clearing the vendor shows every product and keeps every row */
  lemma NoVendorShowsAll(all: seq<ListedProduct>, form: FormData)
    requires !Truthy(form.vendorId)
    ensures VendorFiltered(all, form) == (all, form)
  {
  }

  /** A change touches only its row. A numeric field becomes a number, 0 when the text does
      not parse; choosing a product keeps the id as chosen and takes the looked-up prices
      unless they are null. */
  lemma RowChangedEffect(row: ProductRow, all: seq<ListedProduct>, field: RowField, value: Value,
                         lookup: Option<(Value, Value)>)
    ensures var r := RowChanged(row, all, field, value, lookup);
      && (field == AddedField ==> r == row.(addedStock := Num(ParseFloatOrZero(value))))
      && (field == AddedField && ParseFloat(value).None? ==> r.addedStock == Num(0.0))
      && (field == PurchasePriceField ==> r == row.(purchasePrice := Num(ParseFloatOrZero(value))))
      && (field == SellPriceField ==> r == row.(sellPrice := Num(ParseFloatOrZero(value))))
      && (field == ExpiryField ==> r == row.(expiryDate := value))
      && (field == ProductField ==> r.productId == value && r.addedStock == row.addedStock && r.expiryDate == row.expiryDate)
      && (field == ProductField && !Truthy(value) ==> r == row.(productId := value))
      && (field == ProductField && Truthy(value) && lookup.Some? && lookup.value.0 != Null ==>
            r.purchasePrice == lookup.value.0)
      && (field == ProductField && Truthy(value) && lookup.Some? && lookup.value.1 != Null ==>
            r.sellPrice == lookup.value.1)
      && (field == ProductField && Truthy(value) && lookup.None? ==>
            r.purchasePrice == PriceOrZero(ListedFind(all, ParseInt(value)), true)
            && r.sellPrice == PriceOrZero(ListedFind(all, ParseInt(value)), false))
  {
  }

  /** Without a matching listed product the fallback prices are 0 */
  lemma UnlistedProductPricesZero(all: seq<ListedProduct>, value: Value)
    requires forall p :: p in all ==> ParseInt(value) != Some(p.id)
    ensures ListedFind(all, ParseInt(value)).None?
    ensures PriceOrZero(ListedFind(all, ParseInt(value)), true) == Num(0.0)
    ensures PriceOrZero(ListedFind(all, ParseInt(value)), false) == Num(0.0)
  {
  }

  /** The total of two runs of rows is the sum of their totals, NaN when either is */
  lemma {:induction false} BillTotalAppend(a: seq<ProductRow>, b: seq<ProductRow>)
    ensures BillTotal(a + b) == Plus(BillTotal(a), BillTotal(b))
    decreases |b|
  {
    if b == [] {
      assert a + b == a;
    } else {
      var init, last := b[..|b| - 1], b[|b| - 1];
      LastSplit(a, b);
      BillTotalSnoc(a + init, last);
      BillTotalSnoc(init, last);
      BillTotalAppend(a, init);
    }
  }

  lemma LastSplit(a: seq<ProductRow>, b: seq<ProductRow>)
    requires b != []
    ensures b == b[..|b| - 1] + [b[|b| - 1]]
    ensures a + b == (a + b[..|b| - 1]) + [b[|b| - 1]]
  {
  }

  /** One more row adds its amount */
  lemma BillTotalSnoc(rows: seq<ProductRow>, row: ProductRow)
    ensures BillTotal(rows + [row]) == Plus(BillTotal(rows), RowAmount(row))
  {
    assert (rows + [row])[..|rows|] == rows;
  }

  /** A blank row adds nothing to the bill */
  lemma BlankRowAddsNothing(rows: seq<ProductRow>)
    ensures BillTotal(rows + [BlankRow]) == BillTotal(rows)
  {
    BillTotalSnoc(rows, BlankRow);
  }

  /** Removing a row takes its amount off the bill */
  lemma RemovedRowTotal(rows: seq<ProductRow>, index: nat)
    requires index < |rows| && BillTotal(rows).Some?
    ensures RowAmount(rows[index]).Some? && BillTotal(RowRemoved(rows, index)).Some?
    ensures BillTotal(RowRemoved(rows, index)).value + RowAmount(rows[index]).value == BillTotal(rows).value
  {
    var before, x, after := rows[..index], rows[index], rows[index + 1..];
    RowRemovedSplit(rows, index);
    BillTotalAppend(before + [x], after);
    BillTotalSnoc(before, x);
    BillTotalAppend(before, after);
  }

  lemma RowRemovedSplit(rows: seq<ProductRow>, index: nat)
    requires index < |rows|
    ensures rows == rows[..index] + [rows[index]] + rows[index + 1..]
    ensures RowRemoved(rows, index) == rows[..index] + rows[index + 1..]
  {
  }

  /** Removing row i keeps the other rows in order */
  lemma RowRemovedKeepsOthers(rows: seq<ProductRow>, index: nat)
    requires index < |rows|
    ensures |RowRemoved(rows, index)| == |rows| - 1
    ensures forall j :: 0 <= j < index ==> RowRemoved(rows, index)[j] == rows[j]
    ensures forall j :: index < j < |rows| ==> RowRemoved(rows, index)[j - 1] == rows[j]
  {
  }

  /** Cash and bank transfer post the whole total as paid, credit posts 0, and cash and
      credit posts the amount entered; the due date goes only with the credit methods and
      the transfer details only with a bank transfer */
  lemma PayloadSplit(form: FormData)
    ensures var p := Payload(form);
      && p.totalBillAmount == BillTotal(form.products) && p.products == form.products
      && (form.paymentMethod == Str("cash") || form.paymentMethod == Str("bank_transfer") ==>
            p.amountPaid == Json(p.totalBillAmount))
      && (form.paymentMethod == Str("credit") ==> p.amountPaid == Num(0.0))
      && (form.paymentMethod == Str("cash_and_credit") ==> p.amountPaid == form.amountPaid)
      && (p.creditDueDate != Null ==> IsCreditMethod(form.paymentMethod))
      && (IsCreditMethod(form.paymentMethod) ==> p.creditDueDate == form.creditDueDate)
      && (form.paymentMethod == Str("bank_transfer") ==>
            p.transactionId == form.transactionId && p.bankName == form.bankName)
      && (form.paymentMethod != Str("bank_transfer") ==> p.transactionId == Null && p.bankName == Null)
  {
  }

  /** The amount the form posts as paid is the paid part the purchase route's payment switch
      computes from the posted method, total and amount: a cash or credit purchase always
      passes the switch, and a bank transfer, which the form offers, never does */
  lemma PayloadAgreesWithRouteSplit(form: FormData)
    ensures var p := Payload(form);
      var split := StockPurchases.PaymentSplit(p.paymentMethod, Json(p.totalBillAmount), p.amountPaid);
      && (split.Ok? ==> split.value.0 == p.amountPaid)
      && (form.paymentMethod == Str("cash") ==> split == Ok((p.amountPaid, Num(0.0))))
      && (form.paymentMethod == Str("credit") ==> split == Ok((Num(0.0), Json(p.totalBillAmount))))
      && (form.paymentMethod == Str("bank_transfer") ==> split == Err(StockPurchases.InvalidPaymentMethod))
  {
  }

  /** Whatever the form posts, the purchase route refuses it with 400 before touching any
      table, because the body carries no invoice number */
  lemma PostedPurchaseRefused(s: Ledger.Db, form: FormData, now: nat, random: real)
    requires 0.0 <= random < 1.0
    ensures StockPurchases.RecordPurchase(s, AsPurchaseRequest(Payload(form)), now, random)
      == (s, Ledger.Refused(400, StockPurchases.MissingFields))
  {
  }

  /** Even with an invoice number added, a bank transfer the form offers is refused */
  lemma BankTransferPostRefused(s: Ledger.Db, form: FormData, number: Value, now: nat, random: real)
    requires 0.0 <= random < 1.0
    requires form.paymentMethod == Str("bank_transfer")
    ensures var req := AsPurchaseRequest(Payload(form)).(invoiceNumber := number);
      StockPurchases.RecordPurchase(s, req, now, random).1.Refused?
      && StockPurchases.RecordPurchase(s, req, now, random).0 == s
  {
    var req := AsPurchaseRequest(Payload(form)).(invoiceNumber := number);
    StockPurchases.BankTransferRefused(s, req, now, random);
  }
}
