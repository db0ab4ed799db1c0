/** The checkout page: the form checks, the sign-in check, the order it
    writes as a snapshot of the cart, and the page's empty-cart redirect.
    The cart store is an input: its own operations are not modelled. */
module Checkout {
  import opened Basics
  import opened Text
  import opened Orders
  import opened Delivery
  import Identity


  /** A cart line: a catalog product with the chosen quantity. */
  datatype CartLine = CartLine(
    id: string, name: string, nameMarathi: string, description: string, descriptionMarathi: string,
    price: int, weight: string, image: string, quantity: int)

  datatype CheckoutForm = CheckoutForm(name: string, phone: string, address: string, pincode: string, notes: string)

  datatype CheckoutError = MissingField | OutsideDeliveryArea

  /** Whether the form fails check `e`. Notes are optional, and the phone
      number only has to be non-empty. */
  predicate Fails(f: CheckoutForm, e: CheckoutError) {
    match e
    case MissingField => f.name == "" || f.phone == "" || f.address == "" || f.pincode == ""
    case OutsideDeliveryArea => !InDeliveryArea(f.pincode)
  }

  /** The form checks in order; the first failure decides. */
  function ValidateForm(f: CheckoutForm): (r: Option<CheckoutError>)
    ensures r.None? <==> !Fails(f, MissingField) && !Fails(f, OutsideDeliveryArea)
    ensures r == Some(MissingField) <==> Fails(f, MissingField)
    ensures r == Some(OutsideDeliveryArea) <==> !Fails(f, MissingField) && Fails(f, OutsideDeliveryArea)
  {
    if Fails(f, MissingField) then Some(MissingField)
    else if Fails(f, OutsideDeliveryArea) then Some(OutsideDeliveryArea)
    else None
  }

  /** `item` records the purchase fields of `line`; the product's
      descriptions and picture are not copied. */
  predicate Copies(item: LineItem, line: CartLine) {
    && item.id == line.id && item.name == line.name && item.nameMarathi == line.nameMarathi
    && item.price == line.price && item.quantity == line.quantity && item.weight == line.weight
  }

  function ItemOf(line: CartLine): LineItem {
    LineItem(line.id, line.name, line.nameMarathi, line.price, line.quantity, line.weight)
  }

  /** The order's items: one per cart line, in cart order. */
  function ItemsOf(cart: seq<CartLine>): (items: seq<LineItem>)
    ensures |items| == |cart|
    ensures forall i | 0 <= i < |cart| :: Copies(items[i], cart[i])
  {
    seq(|cart|, i requires 0 <= i < |cart| => ItemOf(cart[i]))
  }

  /** The order written for a signed-in user. */
  function NewOrder(f: CheckoutForm, user: Identity.User, cart: seq<CartLine>, totalPrice: int, now: int): (o: Order)
    ensures o.userId == user.uid && o.status == Pending && o.messages == []
    ensures o.customer == Customer(f.name, f.phone, f.address, f.pincode, f.notes, user.email)
    ensures |o.items| == |cart| && forall i | 0 <= i < |cart| :: Copies(o.items[i], cart[i])
    ensures o.totalPrice == totalPrice && o.createdAt == now
  {
    Order(user.uid, Customer(f.name, f.phone, f.address, f.pincode, f.notes, user.email),
          ItemsOf(cart), totalPrice, Pending, [], now)
  }

  datatype SubmitOutcome =
    | Refused(error: CheckoutError)
    | LoginRequired(to: string, from: string)
    | Placed(orderId: string)
    | WriteFailed

  /** The store and the cart as checkout sees them. */
  datatype Shop = Shop(orders: OrderStore, cart: seq<CartLine>)

  datatype SubmitResult = SubmitResult(outcome: SubmitOutcome, shop: Shop)

  /** `handleSubmit`. The store's push under `newId` succeeds or fails as
      `writeSucceeds` says; the cart is emptied only after a successful
      write. */
  function Submit(shop: Shop, f: CheckoutForm, session: Option<Identity.User>, totalPrice: int,
                  now: int, newId: string, writeSucceeds: bool): (r: SubmitResult)
    ensures ValidateForm(f).Some? ==> r == SubmitResult(Refused(ValidateForm(f).value), shop)
    ensures ValidateForm(f).None? && session.None? ==> r == SubmitResult(LoginRequired("/auth", "/checkout"), shop)
    ensures r.outcome.Placed? <==> ValidateForm(f).None? && session.Some? && writeSucceeds
    ensures r.outcome.Placed? ==>
      && r.outcome.orderId == newId
      && r.shop.orders == shop.orders[newId := NewOrder(f, session.value, shop.cart, totalPrice, now)]
      && r.shop.cart == []
    ensures !r.outcome.Placed? ==> r.shop == shop
  {
    match ValidateForm(f)
    case Some(e) => SubmitResult(Refused(e), shop)
    case None =>
      match session
      case None => SubmitResult(LoginRequired("/auth", "/checkout"), shop)
      case Some(user) =>
        if writeSucceeds then
          SubmitResult(Placed(newId), Shop(shop.orders[newId := NewOrder(f, user, shop.cart, totalPrice, now)], []))
        else
          SubmitResult(WriteFailed, shop)
  }

  /** What the page shows: the confirmation after success; otherwise, with
      an empty cart, a redirect to the cart page; otherwise the form. */
  datatype PageView = ShowSuccess | RedirectToCart | ShowForm

  function View(success: bool, cart: seq<CartLine>): (v: PageView)
    ensures v == RedirectToCart <==> !success && |cart| == 0
    ensures v == ShowForm <==> !success && |cart| > 0
  {
    if success then ShowSuccess else if |cart| == 0 then RedirectToCart else ShowForm
  }

  /** Placing an order empties the cart, so the page must check for success
      before it checks for an empty cart: with the success flag set it shows
      the confirmation, without it the same cart would send the user away. */
  lemma PlacedOrderShowsSuccess(shop: Shop, f: CheckoutForm, user: Identity.User, total: int, now: int, id: string)
    requires ValidateForm(f).None?
    ensures
      var r := Submit(shop, f, Some(user), total, now, id, true);
      && r.outcome == Placed(id)
      && View(true, r.shop.cart) == ShowSuccess
      && View(false, r.shop.cart) == RedirectToCart
  {
  }

  /** A failed write keeps the cart, so the form stays on screen when the
      cart was not empty. */
  lemma FailedWriteKeepsForm(shop: Shop, f: CheckoutForm, user: Identity.User, total: int, now: int, id: string)
    requires ValidateForm(f).None? && |shop.cart| > 0
    ensures
      var r := Submit(shop, f, Some(user), total, now, id, false);
      r.outcome == WriteFailed && View(false, r.shop.cart) == ShowForm
  {
  }

  // ---------------------------------------------------------------------
  // Totals

  /** Sum of quantity times price over the cart. */
  function CartTotal(cart: seq<CartLine>): int {
    if |cart| == 0 then 0 else cart[0].quantity * cart[0].price + CartTotal(cart[1..])
  }

  /** Sum of quantity times price over an order's items. */
  function ItemsTotal(items: seq<LineItem>): int {
    if |items| == 0 then 0 else items[0].quantity * items[0].price + ItemsTotal(items[1..])
  }

  /** The items copy the priced quantities exactly, so they add up to what
      the cart adds up to. */
  lemma {:induction false} CopiedItemsKeepTotal(cart: seq<CartLine>, items: seq<LineItem>)
    requires |items| == |cart|
    requires forall i | 0 <= i < |cart| :: Copies(items[i], cart[i])
    ensures ItemsTotal(items) == CartTotal(cart)
  {
    if |cart| > 0 {
      CopiedItemsKeepTotal(cart[1..], items[1..]);
    }
  }

  /** When the cart's total is its priced sum, the placed order's total is
      the sum of its own items. */
  lemma PlacedOrderTotalMatchesItems(f: CheckoutForm, user: Identity.User, cart: seq<CartLine>, now: int)
    ensures
      var o := NewOrder(f, user, cart, CartTotal(cart), now);
      o.totalPrice == ItemsTotal(o.items)
  {
    var o := NewOrder(f, user, cart, CartTotal(cart), now);
    CopiedItemsKeepTotal(cart, o.items);
  }

  // ---------------------------------------------------------------------
  // Examples

  /** A non-Mumbai pincode is refused before anything is written. */
  lemma OutsidePincodeWritesNothing(shop: Shop, session: Option<Identity.User>, total: int, now: int, id: string, ok: bool)
    ensures Submit(shop, CheckoutForm("Asha", "9876543210", "Karol Bagh", "110001", ""), session, total, now, id, ok)
            == SubmitResult(Refused(OutsideDeliveryArea), shop)
  {
    assert "110001"[0] != MumbaiPrefix[0];
  }

  /** No digit pattern is applied to the phone at checkout: any non-empty
      text is accepted. */
  lemma AnyPhoneAccepted(shop: Shop, user: Identity.User, total: int, now: int, id: string)
    ensures Submit(shop, CheckoutForm("Asha", "call me", "Dadar", "400050", ""), Some(user), total, now, id, true).outcome
            == Placed(id)
  {
    assert InDeliveryArea("400050");
  }

  /** A placed order is one new pending order, and nothing else in the store
      changes. */
  lemma PlacingAddsOnePendingOrder(shop: Shop, f: CheckoutForm, user: Identity.User, total: int, now: int, id: string)
    requires ValidateForm(f).None? && id !in shop.orders
    ensures
      var r := Submit(shop, f, Some(user), total, now, id, true);
      && |r.shop.orders| == |shop.orders| + 1
      && r.shop.orders[id].status == Pending
      && (forall k | k in shop.orders :: k in r.shop.orders && r.shop.orders[k] == shop.orders[k])
  {
  }
}
