/** An order's life across the pages: placed at checkout, listed for its
    owner and in the console's pending tab, decided by an admin. */
module Lifecycle {
  import opened Basics
  import opened Orders
  import Identity
  import Checkout
  import AdminOrders
  import UserOrders

  /** The store's entries, listed in some order (the collection snapshot). */
  ghost predicate ListsStore(entries: seq<Entry>, store: OrderStore) {
    && (forall k | 0 <= k < |entries| :: entries[k].id in store && store[entries[k].id] == entries[k].order)
    && (forall id | id in store :: Entry(id, store[id]) in entries)
  }

  /** After a successful checkout the new order shows in its owner's list and
      in the console's pending tab. */
  lemma PlacedOrderIsListed(shop: Checkout.Shop, f: Checkout.CheckoutForm, user: Identity.User,
                            total: int, now: int, id: string, entries: seq<Entry>)
    requires Checkout.ValidateForm(f).None?
    requires ListsStore(entries, Checkout.Submit(shop, f, Some(user), total, now, id, true).shop.orders)
    ensures
      var o := Checkout.NewOrder(f, user, shop.cart, total, now);
      && Entry(id, o) in UserOrders.MyOrders(Some(user.uid), Some(entries)).orders
      && Entry(id, o) in AdminOrders.TabsOf(AdminOrders.AdminOrderList(Some(entries))).pending
  {
    var o := Checkout.NewOrder(f, user, shop.cart, total, now);
    var store := Checkout.Submit(shop, f, Some(user), total, now, id, true).shop.orders;
    assert store[id] == o;
    assert Entry(id, o) in entries;
    UserOrders.MyOrdersExact(user.uid, entries, Entry(id, o));
    AdminOrders.TabsPartition(Some(entries), Entry(id, o));
    SortKeepsMembers(entries, Entry(id, o));
  }

  /** Once an admin accepts it, the owner's list shows the order confirmed and
      the console moves it to the confirmed tab. */
  lemma AcceptedOrderShowsConfirmed(store: OrderStore, id: string, uid: string, entries: seq<Entry>)
    requires id in store && store[id].userId == uid
    requires ListsStore(entries, AdminOrders.Accept(store, id))
    ensures
      var o := store[id].(status := Confirmed);
      && Entry(id, o) in UserOrders.MyOrders(Some(uid), Some(entries)).orders
      && UserOrders.BadgeOf(o.status) == UserOrders.ConfirmedBadge
      && Entry(id, o) in AdminOrders.TabsOf(AdminOrders.AdminOrderList(Some(entries))).confirmed
      && Entry(id, o) !in AdminOrders.TabsOf(AdminOrders.AdminOrderList(Some(entries))).pending
  {
    var o := store[id].(status := Confirmed);
    assert AdminOrders.Accept(store, id)[id] == o;
    assert Entry(id, o) in entries;
    UserOrders.MyOrdersExact(uid, entries, Entry(id, o));
    AdminOrders.TabsPartition(Some(entries), Entry(id, o));
    SortKeepsMembers(entries, Entry(id, o));
  }
}
