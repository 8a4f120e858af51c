/** The sale screen: the cart the cashier fills from the product list, its total, the
    payment fields, and the request body it posts to `POST /sale-invoices`. The component's
    state (`products`, `cart`, `newSale`) is a class whose methods are the event handlers;
    each handler is proved against a function that says what the new state is. */
module SellScreen {
  import opened Js
  import Ledger
  import Sales

  /** A product as the list shows it: `stock` already read with `parseInt(...) || 0` */
  datatype CatalogProduct = CatalogProduct(id: int, name: string, stock: int, sellPrice: Value)

  /** A cart line: the product's fields and the quantity taken */
  datatype CartItem = CartItem(id: int, name: string, stock: int, sellPrice: Value, quantity: int)

  /** The `newSale` fields; the due date is the chosen day as its ISO text, or null */
  datatype SaleDraft = SaleDraft(
    customerId: Value,
    paymentType: Value,
    amountPaid: real,
    creditAmount: real,
    creditDueDate: Value,
    transactionId: Value,
    bankName: Value)

  const InitialDraft := SaleDraft(Str(""), Str("cash"), 0.0, 0.0, Null, Str(""), Str(""))

  /** One element of the posted `products` array */
  datatype PayloadLine = PayloadLine(id: int, quantity: int, sellPrice: Value)

  /** The body `addSale` posts */
  datatype SalePayload = SalePayload(
    customerId: Value,
    products: seq<PayloadLine>,
    totalPrice: real,
    paymentType: Value,
    amountPaid: real,
    creditAmount: real,
    creditDueDate: Value,
    transactionId: Value,
    bankName: Value)

  /** Why `addSale` stops before posting */
  datatype SubmitError = EmptyCart | InvalidPrices | InvalidTotal | MissingDueDate

  // ------------------------------------------------------------------ the cart

  /** The position of the first line for a product (`cart.find`) */
  function IndexOf(cart: seq<CartItem>, id: int): (r: Option<nat>)
    ensures r.Some? ==> r.value < |cart| && cart[r.value].id == id
    ensures r.Some? ==> forall j :: 0 <= j < r.value ==> cart[j].id != id
    ensures r.None? ==> forall j :: 0 <= j < |cart| ==> cart[j].id != id
  {
    if cart == [] then None
    else if cart[0].id == id then Some(0)
    else match IndexOf(cart[1..], id)
      case Some(i) => Some(i + 1)
      case None => None
  }

  /** The first product of the list with the id (`products.find`) */
  function FindProduct(products: seq<CatalogProduct>, id: int): (r: Option<CatalogProduct>)
    ensures r.Some? ==> r.value in products && r.value.id == id
    ensures r.None? ==> forall j :: 0 <= j < |products| ==> products[j].id != id
  {
    if products == [] then None
    else if products[0].id == id then Some(products[0])
    else FindProduct(products[1..], id)
  }

  /** A price the cart accepts: not null, not NaN, above 0 */
  predicate PriceAccepted(price: Value)
  {
    !(price.Null? || IsNaN(price) || LessEq(price, Num(0.0)))
  }

  /** The price `addToCart` settles on: the most recent entry's sell price when it parses to
      a positive number, else the product's own price when that is above 0, else null.
      `recent` is None when the lookup failed. */
  function ChosenPrice(recent: Option<Value>, own: Value): Value
  {
    var fallback := if Less(Num(0.0), own) then own else Null;
    match recent
    case None => fallback
    case Some(v) =>
      match ParseFloat(v)
      case Some(x) => if x > 0.0 then Num(x) else fallback
      case None => fallback
  }

  /** Every line for the product gets one more unit and the new price */
  function Bumped(cart: seq<CartItem>, id: int, price: Value): seq<CartItem>
  {
    seq(|cart|, i requires 0 <= i < |cart| =>
      if cart[i].id == id then cart[i].(quantity := cart[i].quantity + 1, sellPrice := price) else cart[i])
  }

  /** Every line for the product gets the quantity */
  function Resized(cart: seq<CartItem>, id: int, quantity: int): seq<CartItem>
  {
    seq(|cart|, i requires 0 <= i < |cart| => if cart[i].id == id then cart[i].(quantity := quantity) else cart[i])
  }

  /** `cart.filter(item => item.id !== id)` */
  function Without(cart: seq<CartItem>, id: int): seq<CartItem>
  {
    if cart == [] then []
    else (if cart[0].id == id then [] else [cart[0]]) + Without(cart[1..], id)
  }

  /** The lines `Without` drops */
  function Only(cart: seq<CartItem>, id: int): seq<CartItem>
  {
    if cart == [] then []
    else (if cart[0].id == id then [cart[0]] else []) + Only(cart[1..], id)
  }

  /** The cart after `addToCart(product)` */
  function AddedToCart(cart: seq<CartItem>, product: CatalogProduct, recent: Option<Value>): seq<CartItem>
  {
    var price := ChosenPrice(recent, product.sellPrice);
    if product.id == 0 || !PriceAccepted(price) || product.stock <= 0 then cart
    else match IndexOf(cart, product.id)
      case Some(i) => if cart[i].quantity + 1 > product.stock then cart else Bumped(cart, product.id, price)
      case None => cart + [CartItem(product.id, product.name, product.stock, price, 1)]
  }

  /** The cart after `updateQuantity(id, input)`. A non-positive number for a product that
      has no line throws on reading the missing line's quantity, so the cart stays. */
  function UpdatedQuantity(cart: seq<CartItem>, products: seq<CatalogProduct>, id: int, input: Value): seq<CartItem>
  {
    match FindProduct(products, id)
    case None => cart
    case Some(p) =>
      match ParseInt(input)
      case None => Without(cart, id)
      case Some(n) =>
        if n <= 0 then
          match IndexOf(cart, id)
          case None => cart
          case Some(i) => if cart[i].quantity > 1 then Resized(cart, id, 1) else Without(cart, id)
        else if n > p.stock then Resized(cart, id, p.stock)
        else Resized(cart, id, n)
  }

  /** What one line adds to the total: price times quantity, nothing when the price is NaN */
  function LineTotal(item: CartItem): real
  {
    match ParseFloat(item.sellPrice)
    case Some(x) => x * item.quantity as real
    case None => 0.0
  }

  /** `calculateTotalPrice()`: the `reduce` over the cart, from its first line */
  function Total(cart: seq<CartItem>): real
  {
    if cart == [] then 0.0 else Total(cart[..|cart| - 1]) + LineTotal(cart[|cart| - 1])
  }

  predicate PricesAccepted(cart: seq<CartItem>)
  {
    forall i :: 0 <= i < |cart| ==> PriceAccepted(cart[i].sellPrice)
  }

  predicate DistinctIds(cart: seq<CartItem>)
  {
    forall i, j :: 0 <= i < j < |cart| ==> cart[i].id != cart[j].id
  }

  /** No two lines share a product, and every line's price is accepted */
  predicate CartValid(cart: seq<CartItem>)
  {
    DistinctIds(cart) && PricesAccepted(cart)
  }

  // ------------------------------------------------------------------ the payment fields

  /** `handlePaymentTypeChange`: cash is paid in full, cash and credit starts as all credit,
      any other type starts at 0 and 0; the due date and transfer details are cleared */
  function PaymentTypeChosen(draft: SaleDraft, paymentType: Value, total: real): SaleDraft
  {
    var (paid, credit) :=
      if paymentType == Str("cash") then (total, 0.0)
      else if paymentType == Str("cash_and_credit") then (0.0, total)
      else (0.0, 0.0);
    draft.(paymentType := paymentType, amountPaid := paid, creditAmount := credit,
           creditDueDate := Null, transactionId := Str(""), bankName := Str(""))
  }

  /** `handleAmountPaidChange`: a NaN or negative entry counts as 0, and the credit is what
      the payment leaves of the total, never below 0 */
  function AmountPaidEntered(draft: SaleDraft, input: Value, total: real): SaleDraft
  {
    var paid := match ParseFloat(input)
      case Some(x) => if x < 0.0 then 0.0 else x
      case None => 0.0;
    draft.(amountPaid := paid, creditAmount := if total - paid > 0.0 then total - paid else 0.0)
  }

  // ------------------------------------------------------------------ submitting

  function PayloadLines(cart: seq<CartItem>): (r: seq<PayloadLine>)
  {
    seq(|cart|, i requires 0 <= i < |cart| => PayloadLine(cart[i].id, cart[i].quantity, cart[i].sellPrice))
  }

  /** What `addSale` posts, or why it stops */
  function SubmitSale(cart: seq<CartItem>, draft: SaleDraft): Result<SalePayload, SubmitError>
  {
    if cart == [] then Err(EmptyCart)
    else if !PricesAccepted(cart) then Err(InvalidPrices)
    else
      var total := Total(cart);
      if total <= 0.0 then Err(InvalidTotal)
      else
        var customer := if draft.customerId == Str("") then Null else draft.customerId;
        var lines := PayloadLines(cart);
        if draft.paymentType == Str("cash") then
          Ok(SalePayload(customer, lines, total, draft.paymentType, total, 0.0, Null, Null, Null))
        else if draft.paymentType == Str("cash_and_credit") then
          var paid := if draft.amountPaid < total then draft.amountPaid else total;
          var credit := total - paid;
          if credit > 0.0 && !Truthy(draft.creditDueDate) then Err(MissingDueDate)
          else
            var due := if credit == 0.0 then Null else draft.creditDueDate;
            Ok(SalePayload(customer, lines, total, draft.paymentType, paid, credit, Or(due, Null), Null, Null))
        else
          Ok(SalePayload(customer, lines, total, draft.paymentType, draft.amountPaid, draft.creditAmount,
                         Or(draft.creditDueDate, Null), draft.transactionId, draft.bankName))
  }

  /** The posted body as the sale route reads it: the screen sends no invoice number */
  function AsSaleRequest(p: SalePayload): Sales.SaleRequest
  {
    Sales.SaleRequest(
      Undefined, p.customerId,
      Some(seq(|p.products|, i requires 0 <= i < |p.products| => Sales.SaleLine(p.products[i].id, p.products[i].quantity))),
      Num(p.totalPrice), p.paymentType, Num(p.amountPaid), Num(p.creditAmount))
  }

  // ------------------------------------------------------------------ the component

  class SellForm {
    var products: seq<CatalogProduct>
    var cart: seq<CartItem>
    var sale: SaleDraft

    ghost predicate Valid()
      reads this
    {
      CartValid(cart)
    }

    /** The screen as it opens, with the product list it fetched */
    constructor (catalogue: seq<CatalogProduct>)
      ensures Valid()
      ensures products == catalogue && cart == [] && sale == InitialDraft
    {
      products := catalogue;
      cart := [];
      sale := InitialDraft;
    }

    /** `addToCart(product)`; `recent` is the sell price the recent-price lookup answered
        with, or None when the lookup failed */
    method AddToCart(product: CatalogProduct, recent: Option<Value>)
      requires Valid()
      modifies this
      ensures Valid()
      ensures cart == AddedToCart(old(cart), product, recent)
      ensures products == old(products) && sale == old(sale)
    {
      if product.id == 0 {
        return;
      }
      var price := ChosenPrice(recent, product.sellPrice);
      if !PriceAccepted(price) {
        return;
      }
      if product.stock <= 0 {
        return;
      }
      AddedToCartValid(cart, product, recent);
      var existing := IndexOf(cart, product.id);
      if existing.Some? {
        if cart[existing.value].quantity + 1 > product.stock {
          return;
        }
        cart := Bumped(cart, product.id, price);
      } else {
        cart := cart + [CartItem(product.id, product.name, product.stock, price, 1)];
      }
    }

    /** `removeFromCart(id)` */
    method RemoveFromCart(id: int)
      requires Valid()
      modifies this
      ensures Valid()
      ensures cart == Without(old(cart), id)
      ensures products == old(products) && sale == old(sale)
    {
      WithoutValid(cart, id);
      cart := Without(cart, id);
    }

    /** `updateQuantity(id, input)` */
    method UpdateQuantity(id: int, input: Value)
      requires Valid()
      modifies this
      ensures Valid()
      ensures cart == UpdatedQuantity(old(cart), products, id, input)
      ensures products == old(products) && sale == old(sale)
    {
      UpdatedQuantityValid(cart, products, id, input);
      var inCart := IndexOf(cart, id);
      var original := FindProduct(products, id);
      if original.None? {
        return;
      }
      var parsed := ParseInt(input);
      if parsed.None? {
        cart := Without(cart, id);
        return;
      }
      var n := parsed.value;
      if n <= 0 {
        if inCart.None? {
          return;
        }
        if cart[inCart.value].quantity > 1 {
          cart := Resized(cart, id, 1);
        } else {
          cart := Without(cart, id);
        }
        return;
      }
      if n > original.value.stock {
        cart := Resized(cart, id, original.value.stock);
        return;
      }
      cart := Resized(cart, id, n);
    }

    /** `handlePaymentTypeChange` */
    method HandlePaymentTypeChange(paymentType: Value)
      modifies this
      ensures sale == PaymentTypeChosen(old(sale), paymentType, Total(cart))
      ensures cart == old(cart) && products == old(products)
    {
      var total := Total(cart);
      var paid, credit := 0.0, 0.0;
      if paymentType == Str("cash") {
        paid := total;
      } else if paymentType == Str("cash_and_credit") {
        credit := total;
      }
      sale := sale.(paymentType := paymentType, amountPaid := paid, creditAmount := credit,
                    creditDueDate := Null, transactionId := Str(""), bankName := Str(""));
    }

    /** `handleAmountPaidChange` */
    method HandleAmountPaidChange(input: Value)
      modifies this
      ensures sale == AmountPaidEntered(old(sale), input, Total(cart))
      ensures cart == old(cart) && products == old(products)
    {
      var entered := ParseFloat(input);
      var total := Total(cart);
      var paid := if entered.None? || entered.value < 0.0 then 0.0 else entered.value;
      var credit := if 0.0 > total - paid then 0.0 else total - paid;
      sale := sale.(amountPaid := paid, creditAmount := credit);
    }

    /** `addSale`: the checks, then the payment fields reassigned by payment type */
    method AddSale() returns (r: Result<SalePayload, SubmitError>)
      ensures r == SubmitSale(cart, sale)
    {
      if cart == [] {
        return Err(EmptyCart);
      }
      if !PricesAccepted(cart) {
        return Err(InvalidPrices);
      }
      var total := Total(cart);
      if total <= 0.0 {
        return Err(InvalidTotal);
      }
      var customer := if sale.customerId == Str("") then Null else sale.customerId;
      var paid, credit, due, transaction, bank :=
        sale.amountPaid, sale.creditAmount, sale.creditDueDate, sale.transactionId, sale.bankName;
      if sale.paymentType == Str("cash") {
        paid, credit, due, transaction, bank := total, 0.0, Null, Null, Null;
      } else if sale.paymentType == Str("cash_and_credit") {
        paid := if paid < total then paid else total;
        credit := total - paid;
        transaction, bank := Null, Null;
        if credit > 0.0 && !Truthy(due) {
          return Err(MissingDueDate);
        } else if credit == 0.0 {
          due := Null;
        }
      }
      var formatted := if Truthy(due) then due else Null;
      r := Ok(SalePayload(customer, PayloadLines(cart), total, sale.paymentType, paid, credit, formatted, transaction, bank));
    }
  }

  // ------------------------------------------------------------------ lemmas

  /** `Without` keeps exactly the other products' lines, and `Only` the product's */
  lemma {:induction false} WithoutSplits(cart: seq<CartItem>, id: int)
    ensures forall x :: x in Without(cart, id) ==> x in cart && x.id != id
    ensures forall x :: x in Only(cart, id) ==> x.id == id
    ensures multiset(Without(cart, id)) + multiset(Only(cart, id)) == multiset(cart)
  {
    if cart != [] {
      WithoutSplits(cart[1..], id);
      assert cart == [cart[0]] + cart[1..];
    }
  }

  /** Filtering a cart made of two parts filters each part, keeping their order */
  lemma {:induction false} WithoutAppend(a: seq<CartItem>, b: seq<CartItem>, id: int)
    ensures Without(a + b, id) == Without(a, id) + Without(b, id)
  {
    if a != [] {
      assert (a + b)[1..] == a[1..] + b;
      WithoutAppend(a[1..], b, id);
    } else {
      assert a + b == b;
    }
  }

  /** A cart without lines for the product is left as it is */
  lemma {:induction false} WithoutAbsent(cart: seq<CartItem>, id: int)
    requires forall i :: 0 <= i < |cart| ==> cart[i].id != id
    ensures Without(cart, id) == cart
  {
    if cart != [] {
      WithoutAbsent(cart[1..], id);
      assert cart == [cart[0]] + cart[1..];
    }
  }

  /** Removing lines keeps the cart valid */
  lemma WithoutValid(cart: seq<CartItem>, id: int)
    requires CartValid(cart)
    ensures CartValid(Without(cart, id))
  {
    WithoutDistinct(cart, id);
    WithoutSplits(cart, id);
    var r := Without(cart, id);
    forall i | 0 <= i < |r| ensures PriceAccepted(r[i].sellPrice) {
      assert r[i] in cart;
    }
  }

  lemma {:induction false} WithoutDistinct(cart: seq<CartItem>, id: int)
    requires DistinctIds(cart)
    ensures DistinctIds(Without(cart, id))
  {
    if cart != [] {
      var rest := cart[1..];
      DistinctTail(cart);
      WithoutDistinct(rest, id);
      WithoutSplits(rest, id);
      var tail := Without(rest, id);
      if cart[0].id != id {
        forall x | x in tail ensures x.id != cart[0].id {
          assert x in rest;
        }
        ConsDistinct(cart[0], tail);
      }
    }
  }

  /** The lines after the first are distinct, and none is for the first line's product */
  lemma DistinctTail(cart: seq<CartItem>)
    requires DistinctIds(cart) && cart != []
    ensures DistinctIds(cart[1..])
    ensures forall x :: x in cart[1..] ==> x.id != cart[0].id
  {
    var rest := cart[1..];
    forall i, j | 0 <= i < j < |rest| ensures rest[i].id != rest[j].id {
      assert rest[i] == cart[i + 1] && rest[j] == cart[j + 1];
    }
    forall x | x in rest ensures x.id != cart[0].id {
      var j :| 0 <= j < |rest| && rest[j] == x;
      assert cart[j + 1] == x;
    }
  }

  lemma ConsDistinct(head: CartItem, tail: seq<CartItem>)
    requires DistinctIds(tail)
    requires forall x :: x in tail ==> x.id != head.id
    ensures DistinctIds([head] + tail)
  {
    var r := [head] + tail;
    forall i, j | 0 <= i < j < |r| ensures r[i].id != r[j].id {
      assert r[j] == tail[j - 1];
      if i > 0 {
        assert r[i] == tail[i - 1];
      } else {
        assert r[j] in tail;
      }
    }
  }

  /** Adding to the cart keeps it valid */
  lemma AddedToCartValid(cart: seq<CartItem>, product: CatalogProduct, recent: Option<Value>)
    requires CartValid(cart)
    ensures CartValid(AddedToCart(cart, product, recent))
  {
  }

  /** Changing a quantity keeps the cart valid */
  lemma UpdatedQuantityValid(cart: seq<CartItem>, products: seq<CatalogProduct>, id: int, input: Value)
    requires CartValid(cart)
    ensures CartValid(UpdatedQuantity(cart, products, id, input))
  {
    WithoutValid(cart, id);
    match FindProduct(products, id)
    case None =>
    case Some(p) =>
      ResizedValid(cart, id, 1);
      ResizedValid(cart, id, p.stock);
      if ParseInt(input).Some? {
        ResizedValid(cart, id, ParseInt(input).value);
      }
  }

  lemma ResizedValid(cart: seq<CartItem>, id: int, q: int)
    requires CartValid(cart)
    ensures CartValid(Resized(cart, id, q))
  {
    var r := Resized(cart, id, q);
    assert forall i :: 0 <= i < |cart| ==> r[i].id == cart[i].id && r[i].sellPrice == cart[i].sellPrice;
  }

  /** `addToCart` leaves the cart as it was exactly when the product has id 0, its price is
      not accepted, it has no stock, or one more unit would exceed its stock. Otherwise a
      product already in the cart gets one more unit at the new price, every other line
      staying as it was, and a new product is appended with quantity 1. */
  lemma AddToCartEffect(cart: seq<CartItem>, product: CatalogProduct, recent: Option<Value>)
    requires CartValid(cart)
    ensures var r := AddedToCart(cart, product, recent);
      var price := ChosenPrice(recent, product.sellPrice);
      var at := IndexOf(cart, product.id);
      && (r == cart <==>
            product.id == 0 || !PriceAccepted(price) || product.stock <= 0
            || (at.Some? && cart[at.value].quantity + 1 > product.stock))
      && (r != cart && at.Some? ==>
            && |r| == |cart|
            && r[at.value] == cart[at.value].(quantity := cart[at.value].quantity + 1, sellPrice := price)
            && r[at.value].quantity <= product.stock
            && forall j :: 0 <= j < |cart| && j != at.value ==> r[j] == cart[j])
      && (r != cart && at.None? ==>
            r == cart + [CartItem(product.id, product.name, product.stock, price, 1)])
  {
    var r := AddedToCart(cart, product, recent);
    var price := ChosenPrice(recent, product.sellPrice);
    var at := IndexOf(cart, product.id);
    if at.Some? && r != cart {
      forall j | 0 <= j < |cart| && j != at.value
        ensures r[j] == cart[j]
      {
        assert cart[j].id != cart[at.value].id;
      }
    }
    if at.None? && r != cart {
      assert |r| == |cart| + 1;
    }
    if at.Some? && !(product.id == 0 || !PriceAccepted(price) || product.stock <= 0 || cart[at.value].quantity + 1 > product.stock) {
      assert r[at.value] != cart[at.value];
    }
  }

  /** The price the cart takes from a successful lookup */
  lemma ChosenPriceFromLookup(recent: Value, own: Value)
    requires ParseFloat(recent).Some? && ParseFloat(recent).value > 0.0
    ensures ChosenPrice(Some(recent), own) == Num(ParseFloat(recent).value)
    ensures PriceAccepted(ChosenPrice(Some(recent), own))
  {
  }

  /** A product without a positive price anywhere cannot enter the cart */
  lemma UnpricedProductNotAdded(cart: seq<CartItem>, product: CatalogProduct, recent: Option<Value>)
    requires recent.Some? ==> ParseFloat(recent.value).None? || ParseFloat(recent.value).value <= 0.0
    requires !Less(Num(0.0), product.sellPrice)
    ensures AddedToCart(cart, product, recent) == cart
  {
  }

  /** `updateQuantity` does nothing for a product missing from the list. Otherwise a number
      above the stock sets the stock, a number in 1..stock is set exactly, a number up to 0
      resets a line holding more than 1 to 1, and every other case (a line of 1, or text that
      is not a number) removes the product's line */
  lemma UpdateQuantityEffect(cart: seq<CartItem>, products: seq<CatalogProduct>, id: int, input: Value)
    requires CartValid(cart)
    ensures var r := UpdatedQuantity(cart, products, id, input);
      && (FindProduct(products, id).None? ==> r == cart)
      && (FindProduct(products, id).Some? ==>
            var stock := FindProduct(products, id).value.stock;
            var at := IndexOf(cart, id);
            && (ParseInt(input).None? ==> r == Without(cart, id))
            && (at.Some? && ParseInt(input).Some? ==>
                  var n := ParseInt(input).value;
                  && (n > stock && n > 0 ==> r == cart[at.value := cart[at.value].(quantity := stock)])
                  && (0 < n <= stock ==> r == cart[at.value := cart[at.value].(quantity := n)])
                  && (n <= 0 && cart[at.value].quantity > 1 ==> r == cart[at.value := cart[at.value].(quantity := 1)])
                  && (n <= 0 && cart[at.value].quantity <= 1 ==> r == cart[..at.value] + cart[at.value + 1..])))
  {
    var at := IndexOf(cart, id);
    if at.Some? {
      var i := at.value;
      forall q: int ensures Resized(cart, id, q) == cart[i := cart[i].(quantity := q)] {
        ResizedOne(cart, i, q);
      }
      WithoutOne(cart, i);
    }
  }

  /** In a valid cart, resizing touches only the product's one line */
  lemma ResizedOne(cart: seq<CartItem>, i: nat, q: int)
    requires CartValid(cart) && i < |cart|
    ensures Resized(cart, cart[i].id, q) == cart[i := cart[i].(quantity := q)]
  {
    forall j | 0 <= j < |cart| && j != i
      ensures cart[j].id != cart[i].id
    {
      if j < i {
        assert cart[j].id != cart[i].id;
      } else {
        assert cart[i].id != cart[j].id;
      }
    }
  }

  /** In a valid cart, removing a product drops just its one line */
  lemma WithoutOne(cart: seq<CartItem>, i: nat)
    requires CartValid(cart) && i < |cart|
    ensures Without(cart, cart[i].id) == cart[..i] + cart[i + 1..]
  {
    var before, after := cart[..i], cart[i + 1..];
    forall j | 0 <= j < |before| ensures before[j].id != cart[i].id {
      assert before[j] == cart[j];
    }
    forall j | 0 <= j < |after| ensures after[j].id != cart[i].id {
      assert after[j] == cart[i + 1 + j];
    }
    assert cart == before + [cart[i]] + after;
    WithoutMiddle(before, cart[i], after);
  }

  /** Removing the product of the one line between two runs without it drops that line */
  lemma WithoutMiddle(before: seq<CartItem>, x: CartItem, after: seq<CartItem>)
    requires forall j :: 0 <= j < |before| ==> before[j].id != x.id
    requires forall j :: 0 <= j < |after| ==> after[j].id != x.id
    ensures Without(before + [x] + after, x.id) == before + after
  {
    var id := x.id;
    var front := before + [x];
    WithoutAbsent(before, id);
    WithoutAbsent(after, id);
    WithoutOfOne(x);
    WithoutAppend(before, [x], id);
    assert Without(front, id) == before;
    WithoutAppend(front, after, id);
  }

  lemma WithoutOfOne(x: CartItem)
    ensures Without([x], x.id) == []
  {
    assert [x][1..] == [];
  }

  /** The total of two runs of lines is the sum of their totals */
  lemma {:induction false} TotalAppend(a: seq<CartItem>, b: seq<CartItem>)
    ensures Total(a + b) == Total(a) + Total(b)
    decreases |b|
  {
    if b == [] {
      assert a + b == a;
    } else {
      assert (a + b)[..|a + b| - 1] == a + b[..|b| - 1];
      TotalAppend(a, b[..|b| - 1]);
    }
  }

  /** A cart whose prices read as positive numbers and whose quantities are positive has a
      positive total, unless it is empty */
  lemma {:induction false} TotalPositive(cart: seq<CartItem>)
    requires forall i :: 0 <= i < |cart| ==>
      ParseFloat(cart[i].sellPrice).Some? && ParseFloat(cart[i].sellPrice).value > 0.0 && cart[i].quantity > 0
    ensures cart != [] ==> Total(cart) > 0.0
    ensures Total(cart) >= 0.0
  {
    if cart != [] {
      var n := |cart| - 1;
      assert forall i :: 0 <= i < n ==> cart[..n][i] == cart[i];
      TotalPositive(cart[..n]);
      var x := ParseFloat(cart[n].sellPrice).value;
      assert LineTotal(cart[n]) == x * cart[n].quantity as real;
      PositiveProduct(x, cart[n].quantity);
    }
  }

  lemma PositiveProduct(x: real, q: int)
    requires x > 0.0 && q > 0
    ensures x * q as real > 0.0
  {
  }

  /** Removing a product takes its lines' amounts off the total */
  lemma {:induction false} TotalWithout(cart: seq<CartItem>, id: int)
    ensures Total(Without(cart, id)) + Total(Only(cart, id)) == Total(cart)
  {
    if cart != [] {
      TotalWithout(cart[1..], id);
      var head := if cart[0].id == id then [] else [cart[0]];
      var taken := if cart[0].id == id then [cart[0]] else [];
      TotalAppend(head, Without(cart[1..], id));
      TotalAppend(taken, Only(cart[1..], id));
      TotalAppend([cart[0]], cart[1..]);
      assert cart == [cart[0]] + cart[1..];
      assert Total([cart[0]]) == LineTotal(cart[0]) by {
        assert [cart[0]][..0] == [];
      }
    }
  }

  /** Choosing cash puts the whole total in paid; choosing cash and credit puts it all in
      credit; any other type zeroes both. The due date is cleared each time. */
  lemma PaymentTypeSplit(draft: SaleDraft, paymentType: Value, total: real)
    ensures var d := PaymentTypeChosen(draft, paymentType, total);
      && d.paymentType == paymentType && d.creditDueDate == Null
      && (paymentType == Str("cash") ==> d.amountPaid == total && d.creditAmount == 0.0)
      && (paymentType == Str("cash_and_credit") ==> d.amountPaid == 0.0 && d.creditAmount == total)
      && (paymentType != Str("cash") && paymentType != Str("cash_and_credit") ==>
            d.amountPaid == 0.0 && d.creditAmount == 0.0)
      && d.customerId == draft.customerId
  {
  }

  /** An entered amount is never negative, nor is the credit, and together they cover the
      total, exactly when the payment does not exceed it */
  lemma AmountPaidSplit(draft: SaleDraft, input: Value, total: real)
    ensures var d := AmountPaidEntered(draft, input, total);
      && d.amountPaid >= 0.0 && d.creditAmount >= 0.0
      && d.amountPaid + d.creditAmount >= total
      && (d.amountPaid <= total ==> d.amountPaid + d.creditAmount == total)
      && (ParseFloat(input).Some? && ParseFloat(input).value >= 0.0 ==> d.amountPaid == ParseFloat(input).value)
      && d.(amountPaid := draft.amountPaid, creditAmount := draft.creditAmount) == draft
  {
  }

  /** `addSale` stops exactly for an empty cart, a line with a price it does not accept, a
      total up to 0, or outstanding cash-and-credit without a due date */
  lemma SubmitSaleRefusals(cart: seq<CartItem>, draft: SaleDraft)
    ensures var r := SubmitSale(cart, draft);
      && (r == Err(EmptyCart) <==> cart == [])
      && (r == Err(InvalidPrices) <==> cart != [] && exists i :: 0 <= i < |cart| && !PriceAccepted(cart[i].sellPrice))
      && (r == Err(InvalidTotal) <==> cart != [] && PricesAccepted(cart) && Total(cart) <= 0.0)
      && (r == Err(MissingDueDate) ==>
            draft.paymentType == Str("cash_and_credit") && draft.amountPaid < Total(cart) && !Truthy(draft.creditDueDate))
  {
  }

  /** A posted body covers the cart line by line and prices the whole total; cash posts it
      all as paid, and cash and credit posts a payment of at most the total with the rest as
      credit, a due date only while credit remains, and no transfer details */
  lemma SubmitSaleSplit(cart: seq<CartItem>, draft: SaleDraft)
    requires SubmitSale(cart, draft).Ok?
    ensures var p := SubmitSale(cart, draft).value;
      && p.totalPrice == Total(cart) && p.totalPrice > 0.0
      && |p.products| == |cart|
      && (forall i :: 0 <= i < |cart| ==> p.products[i].id == cart[i].id && p.products[i].quantity == cart[i].quantity)
      && (draft.customerId == Str("") ==> p.customerId == Null)
      && (p.paymentType == Str("cash") ==>
            p.amountPaid == p.totalPrice && p.creditAmount == 0.0 && p.creditDueDate == Null)
      && (p.paymentType == Str("cash_and_credit") ==>
            && p.amountPaid + p.creditAmount == p.totalPrice
            && p.amountPaid <= p.totalPrice && p.creditAmount >= 0.0
            && (draft.amountPaid >= 0.0 ==> p.amountPaid >= 0.0)
            && (p.creditAmount > 0.0 ==> Truthy(p.creditDueDate))
            && (p.creditAmount == 0.0 ==> p.creditDueDate == Null)
            && p.transactionId == Null && p.bankName == Null)
  {
  }

  /** Whatever the screen posts, the sale route refuses it with 400, because the body
      carries no invoice number, and no table changes */
  lemma PostedSaleRefused(s: Ledger.Db, cart: seq<CartItem>, draft: SaleDraft, now: nat)
    requires SubmitSale(cart, draft).Ok?
    ensures Sales.RecordSale(s, AsSaleRequest(SubmitSale(cart, draft).value), now)
      == (s, Ledger.Refused(400, Sales.MissingInvoiceNumber))
  {
    Sales.MissingInvoiceNumberIs400(s, AsSaleRequest(SubmitSale(cart, draft).value), now);
  }
}
