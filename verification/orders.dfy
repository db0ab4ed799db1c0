/** Order records of the `orders/{id}` collection and the newest-first
    ordering both order lists use. Creation times are opaque integers. */
module Orders {
  import opened Basics

  const Pending := "pending"
  const Confirmed := "confirmed"
  const Rejected := "rejected"

  /** One purchased line, copied from the cart at checkout. */
  datatype LineItem = LineItem(
    id: string, name: string, nameMarathi: string, price: int, quantity: int, weight: string)

  /** The contact and delivery fields of the checkout form plus the session
      e-mail (which the provider may not have). */
  datatype Customer = Customer(
    name: string, phone: string, address: string, pincode: string, notes: string,
    email: Option<string>)

  datatype Sender = AdminSender | UserSender

  datatype Message = Message(timestamp: int, sender: Sender, text: string)

  /** A stored order. `status` is the stored string; `messages` is the
      thread, where a missing thread reads as empty. */
  datatype Order = Order(
    userId: string,
    customer: Customer,
    items: seq<LineItem>,
    totalPrice: int,
    status: string,
    messages: seq<Message>,
    createdAt: int)

  type OrderStore = map<string, Order>

  /** One `[id, order]` pair of a collection snapshot. */
  datatype Entry = Entry(id: string, order: Order)

  /** Newest first: creation times never increase along the list. */
  ghost predicate NewestFirst(s: seq<Entry>) {
    forall i, j | 0 <= i < j < |s| :: s[i].order.createdAt >= s[j].order.createdAt
  }

  /** Places `e` in a newest-first list, in front of every entry that is not
      newer than it. */
  function Insert(e: Entry, s: seq<Entry>): (r: seq<Entry>)
    requires NewestFirst(s)
    ensures NewestFirst(r)
    ensures multiset(r) == multiset(s) + multiset{e}
  {
    if |s| == 0 || e.order.createdAt >= s[0].order.createdAt then
      [e] + s
    else
      var rest := Insert(e, s[1..]);
      assert s == [s[0]] + s[1..];
      forall x | x in rest ensures s[0].order.createdAt >= x.order.createdAt {
        assert x in multiset(rest);
        if x != e {
          var j :| 0 <= j < |s[1..]| && s[1..][j] == x;
          assert s[j + 1] == x;
        }
      }
      ConsNewestFirst(s[0], rest);
      [s[0]] + rest
  }

  /** An entry no older than anything in a newest-first list can go in
      front of it. */
  lemma ConsNewestFirst(h: Entry, t: seq<Entry>)
    requires NewestFirst(t)
    requires forall x | x in t :: h.order.createdAt >= x.order.createdAt
    ensures NewestFirst([h] + t)
  {
    var s := [h] + t;
    forall i, j | 0 <= i < j < |s| ensures s[i].order.createdAt >= s[j].order.createdAt {
      assert s[j] == t[j - 1];
      if i > 0 {
        assert s[i] == t[i - 1];
      } else {
        assert t[j - 1] in t;
      }
    }
  }

  /** `sort((a, b) => time(b.createdAt) - time(a.createdAt))`: the same
      entries, newest first. */
  function SortNewestFirst(s: seq<Entry>): (r: seq<Entry>)
    ensures NewestFirst(r)
    ensures multiset(r) == multiset(s)
    ensures |r| == |s|
  {
    if |s| == 0 then []
    else
      assert s == [s[0]] + s[1..];
      Insert(s[0], SortNewestFirst(s[1..]))
  }

  /** Sorting keeps exactly the entries it was given. */
  lemma SortKeepsMembers(s: seq<Entry>, x: Entry)
    ensures x in SortNewestFirst(s) <==> x in s
  {
    assert x in multiset(SortNewestFirst(s)) <==> x in multiset(s);
  }

  /** Sorting a list that is already newest first changes nothing, so
      sorting twice is sorting once. */
  lemma {:induction false} SortSortedIsIdentity(s: seq<Entry>)
    requires NewestFirst(s)
    ensures SortNewestFirst(s) == s
  {
    if |s| > 0 {
      SortSortedIsIdentity(s[1..]);
      assert SortNewestFirst(s[1..]) == s[1..];
      assert s == [s[0]] + s[1..];
    }
  }

  lemma SortIdempotent(s: seq<Entry>)
    ensures SortNewestFirst(SortNewestFirst(s)) == SortNewestFirst(s)
  {
    SortSortedIsIdentity(SortNewestFirst(s));
  }
}
