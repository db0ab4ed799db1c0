/** The "my orders" page: the signed-in user's orders, newest first, and
    the status badge each one shows. */
module UserOrders {
  import opened Basics
  import opened Orders
  import opened Translation

  /** `filter(order => order.userId === uid)`. */
  function OwnedBy(s: seq<Entry>, uid: string): (r: seq<Entry>)
    ensures forall k | 0 <= k < |r| :: r[k].order.userId == uid
    ensures forall x :: multiset(r)[x] == if x.order.userId == uid then multiset(s)[x] else 0
  {
    if |s| == 0 then []
    else
      var rest := OwnedBy(s[1..], uid);
      assert s == [s[0]] + s[1..];
      if s[0].order.userId == uid then [s[0]] + rest else rest
  }

  /** With nobody signed in no subscription is opened; otherwise the page
      lists what the snapshot holds for the user. */
  datatype OrdersView = NotSubscribed | Listed(orders: seq<Entry>)

  /** The page's list: nothing without a user, nothing for an empty
      snapshot, else the user's own entries newest first. */
  function MyOrders(uid: Option<string>, snapshot: Option<seq<Entry>>): (v: OrdersView)
    ensures v.NotSubscribed? <==> uid.None?
    ensures uid.Some? && snapshot.None? ==> v == Listed([])
    ensures v.Listed? ==> NewestFirst(v.orders)
  {
    match uid
    case None => NotSubscribed
    case Some(u) =>
      match snapshot
      case None => Listed([])
      case Some(entries) => Listed(SortNewestFirst(OwnedBy(entries, u)))
  }

  /** The page shows exactly the user's orders: none of anybody else's, and
      every one of theirs (user ids are compared exactly, so letter case
      matters). */
  lemma MyOrdersExact(uid: string, entries: seq<Entry>, x: Entry)
    ensures
      var v := MyOrders(Some(uid), Some(entries));
      x in v.orders <==> x in entries && x.order.userId == uid
  {
    var owned := OwnedBy(entries, uid);
    SortKeepsMembers(owned, x);
    assert x in owned <==> x in multiset(owned);
  }

  // ---------------------------------------------------------------------
  // Status badge

  datatype Badge = ConfirmedBadge | RejectedBadge | PendingBadge

  /** The badge a stored status string selects: anything other than
      `confirmed` or `rejected` shows as pending. */
  function BadgeOf(status: string): (b: Badge)
    ensures b == ConfirmedBadge <==> status == Confirmed
    ensures b == RejectedBadge <==> status == Rejected
    ensures b == PendingBadge <==> status != Confirmed && status != Rejected
  {
    if status == Confirmed then ConfirmedBadge
    else if status == Rejected then RejectedBadge
    else PendingBadge
  }

  /** `getStatusColor`. */
  function StatusColor(status: string): (r: string)
    ensures r == "bg-green-100 text-green-800" <==> status == Confirmed
    ensures r == "bg-red-100 text-red-800" <==> status == Rejected
    ensures r == "bg-yellow-100 text-yellow-800" <==> status != Confirmed && status != Rejected
  {
    match BadgeOf(status)
    case ConfirmedBadge => "bg-green-100 text-green-800"
    case RejectedBadge => "bg-red-100 text-red-800"
    case PendingBadge => "bg-yellow-100 text-yellow-800"
  }

  /** `getStatusLabel`. */
  function StatusLabel(status: string, lang: Language): (r: string)
    ensures lang == En ==> (r == "Confirmed" <==> status == Confirmed) && (r == "Rejected" <==> status == Rejected)
                           && (r == "Pending" <==> status != Confirmed && status != Rejected)
    ensures lang == Mr ==> (r == "पुष्टी केलेले" <==> status == Confirmed) && (r == "नाकारलेले" <==> status == Rejected)
                           && (r == "प्रलंबित" <==> status != Confirmed && status != Rejected)
  {
    match (BadgeOf(status), lang)
    case (ConfirmedBadge, Mr) => "पुष्टी केलेले"
    case (ConfirmedBadge, En) => "Confirmed"
    case (RejectedBadge, Mr) => "नाकारलेले"
    case (RejectedBadge, En) => "Rejected"
    case (PendingBadge, Mr) => "प्रलंबित"
    case (PendingBadge, En) => "Pending"
  }

  /** Colour and label agree on the badge: two statuses get the same colour
      exactly when they get the same label, in either language. An unknown
      status looks exactly like a pending one. */
  lemma BadgeConsistency(s1: string, s2: string, lang: Language)
    ensures StatusColor(s1) == StatusColor(s2) <==> StatusLabel(s1, lang) == StatusLabel(s2, lang)
    ensures s1 != Confirmed && s1 != Rejected ==>
              StatusColor(s1) == StatusColor(Pending) && StatusLabel(s1, lang) == StatusLabel(Pending, lang)
  {
  }
}
