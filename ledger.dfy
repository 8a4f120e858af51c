/** The tables the route handlers read and write, as one mutable database object, with a
    pure snapshot `Db` that the handlers' specifications are written against. A handler runs
    in one transaction: it either commits all of its writes or rolls back to the snapshot it
    started from. */
module Ledger {
  import opened Js

  /** `products` row */
  datatype Product = Product(
    name: string,
    stock: int,
    purchasePrice: Value,
    sellPrice: Value,
    vendor: Option<int>,
    tracksExpiry: bool,
    expiry: Value)

  /** `stock_purchase_invoices` row; the money columns are DECIMAL, so they hold numbers */
  datatype PurchaseInvoice = PurchaseInvoice(
    number: Value,
    vendor: int,
    date: Value,
    total: real,
    paymentMethod: Value,
    paid: real,
    credit: real,
    dueDate: Value,
    lastPaymentDate: Value)

  /** `sale_invoices` row, holding the request's values as the handler binds them */
  datatype SaleInvoice = SaleInvoice(
    number: Value,
    customer: Value,
    date: nat,
    total: Value,
    paymentType: Value,
    paid: Value,
    credit: Value,
    dueDate: Value)

  /** `sale_invoice_items` row */
  datatype SaleItem = SaleItem(invoice: int, product: int, quantity: int)

  /** `stock_entries` row; `invoice` is the purchase invoice it was received under, if any */
  datatype StockEntry = StockEntry(
    id: int,
    invoice: Option<int>,
    product: int,
    added: Value,
    purchasePrice: Value,
    sellPrice: Value,
    purchaseDate: Value,
    expiry: Value,
    paymentMethod: Value,
    dueDate: Value,
    transactionId: Value,
    bankName: Value,
    vendor: Option<int>,
    createdAt: nat)

  /** `invoice_type` of a `credit_payments` row: 'sale' or 'purchase' */
  datatype InvoiceKind = SaleKind | PurchaseKind

  /** `credit_payments` row */
  datatype CreditPayment = CreditPayment(invoice: int, kind: InvoiceKind, amount: real, date: Value)

  /** A snapshot of every table, with the next auto-increment id of each keyed table */
  datatype Db = Db(
    products: map<int, Product>,
    vendors: set<int>,
    customers: set<int>,
    purchases: map<int, PurchaseInvoice>,
    sales: map<int, SaleInvoice>,
    saleItems: seq<SaleItem>,
    entries: seq<StockEntry>,
    payments: seq<CreditPayment>,
    nextPurchaseId: int,
    nextSaleId: int,
    nextEntryId: int)

  /** An HTTP response: a success status with its body, or an error status with the reason */
  datatype Reply<+T, +E> = Done(status: int, value: T) | Refused(status: int, error: E)

  /** Why a credit payment (sale or purchase) is refused; `ServerError` is an exception
      raised while answering */
  datatype CreditError = InvalidAmount | MissingPaymentDate | InvoiceNotFound | ExceedsCredit | ServerError

  /** What the tables guarantee between requests: stock is never negative, every child row
      points at an existing parent, and every id is below its table's next id */
  ghost predicate Consistent(s: Db)
  {
    && (forall p :: p in s.products ==> s.products[p].stock >= 0)
    && (forall k :: k in s.purchases ==> k < s.nextPurchaseId)
    && (forall k :: k in s.sales ==> k < s.nextSaleId)
    && (forall i :: 0 <= i < |s.entries| ==> s.entries[i].id < s.nextEntryId)
    && (forall i :: 0 <= i < |s.entries| && s.entries[i].invoice.Some? ==>
          s.entries[i].invoice.value in s.purchases)
    && (forall i :: 0 <= i < |s.saleItems| ==> s.saleItems[i].invoice in s.sales)
    && (forall i :: 0 <= i < |s.payments| ==> Refers(s, s.payments[i]))
  }

  /** A credit payment names an invoice of its own kind */
  ghost predicate Refers(s: Db, p: CreditPayment)
  {
    if p.kind == SaleKind then p.invoice in s.sales else p.invoice in s.purchases
  }

  /** Sum of the payments logged against one invoice */
  function Logged(log: seq<CreditPayment>, invoice: int, kind: InvoiceKind): real
  {
    if log == [] then 0.0
    else
      var last := log[|log| - 1];
      Logged(log[..|log| - 1], invoice, kind)
        + (if last.invoice == invoice && last.kind == kind then last.amount else 0.0)
  }

  /** Appending a payment adds its amount to its own invoice's sum and nothing to others' */
  lemma LoggedAppend(log: seq<CreditPayment>, p: CreditPayment, invoice: int, kind: InvoiceKind)
    ensures Logged(log + [p], invoice, kind)
      == Logged(log, invoice, kind) + (if p.invoice == invoice && p.kind == kind then p.amount else 0.0)
  {
    assert (log + [p])[..|log + [p]| - 1] == log;
  }

  /** Payments of positive amounts log a non-negative sum */
  lemma {:induction false} LoggedNonNegative(log: seq<CreditPayment>, invoice: int, kind: InvoiceKind)
    requires forall i :: 0 <= i < |log| ==> log[i].amount > 0.0
    ensures Logged(log, invoice, kind) >= 0.0
  {
    if log != [] {
      LoggedNonNegative(log[..|log| - 1], invoice, kind);
    }
  }

  /** The number an `added_stock` column holds; SUM skips NULL, which counts as 0 here */
  function Units(v: Value): real
  {
    match ToNumber(v)
    case Some(x) => x
    case None => 0.0
  }

  /** `SUM(added_stock)` over one product's stock entries, 0 when there are none */
  function StockSum(entries: seq<StockEntry>, product: int): real
  {
    if entries == [] then 0.0
    else
      var last := entries[|entries| - 1];
      StockSum(entries[..|entries| - 1], product) + (if last.product == product then Units(last.added) else 0.0)
  }

  /** The sum over two runs of entries is the sum of their sums */
  lemma {:induction false} StockSumAppend(a: seq<StockEntry>, b: seq<StockEntry>, product: int)
    ensures StockSum(a + b, product) == StockSum(a, product) + StockSum(b, product)
    decreases |b|
  {
    if b == [] {
      assert a + b == a;
    } else {
      assert (a + b)[..|a + b| - 1] == a + b[..|b| - 1];
      assert (a + b)[|a + b| - 1] == b[|b| - 1];
      StockSumAppend(a, b[..|b| - 1], product);
    }
  }

  /** The database connection, one field per table */
  class Database {
    var products: map<int, Product>
    var vendors: set<int>
    var customers: set<int>
    var purchases: map<int, PurchaseInvoice>
    var sales: map<int, SaleInvoice>
    var saleItems: seq<SaleItem>
    var entries: seq<StockEntry>
    var payments: seq<CreditPayment>
    var nextPurchaseId: int
    var nextSaleId: int
    var nextEntryId: int

    /** The tables as a value */
    function State(): Db
      reads this
    {
      Db(products, vendors, customers, purchases, sales, saleItems, entries, payments,
         nextPurchaseId, nextSaleId, nextEntryId)
    }

    ghost predicate Valid()
      reads this
    {
      Consistent(State())
    }

    /** A database whose tables hold the given catalogue and nothing else */
    constructor (catalogue: map<int, Product>, vendorIds: set<int>, customerIds: set<int>)
      requires forall p :: p in catalogue ==> catalogue[p].stock >= 0
      ensures Valid()
      ensures State() == Db(catalogue, vendorIds, customerIds, map[], map[], [], [], [], 1, 1, 1)
    {
      products := catalogue;
      vendors := vendorIds;
      customers := customerIds;
      purchases := map[];
      sales := map[];
      saleItems := [];
      entries := [];
      payments := [];
      nextPurchaseId := 1;
      nextSaleId := 1;
      nextEntryId := 1;
    }

    /** `connection.commit()`: every table takes the transaction's final contents */
    method Commit(s: Db)
      modifies this
      ensures State() == s
    {
      products := s.products;
      vendors := s.vendors;
      customers := s.customers;
      purchases := s.purchases;
      sales := s.sales;
      saleItems := s.saleItems;
      entries := s.entries;
      payments := s.payments;
      nextPurchaseId := s.nextPurchaseId;
      nextSaleId := s.nextSaleId;
      nextEntryId := s.nextEntryId;
    }
  }
}
