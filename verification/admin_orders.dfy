/** The admin console's order side: accept and reject, the message thread,
    and the newest-first list split into status tabs. */
module AdminOrders {
  import opened Basics
  import opened Text
  import opened Orders

  /** `update(orders/{id}, {status})`: only the status changes, whatever it
      was before. The handlers are only reachable from a rendered order card,
      so the order is in the store. */
  function SetStatus(store: OrderStore, id: string, status: string): (r: OrderStore)
    requires id in store
    ensures r.Keys == store.Keys
    ensures r[id].status == status
    ensures r[id] == store[id].(status := status)
    ensures forall k | k in store && k != id :: r[k] == store[k]
  {
    store[id := store[id].(status := status)]
  }

  /** The Accept button. */
  function Accept(store: OrderStore, id: string): (r: OrderStore)
    requires id in store
    ensures r.Keys == store.Keys
    ensures r[id] == store[id].(status := Confirmed)
    ensures forall k | k in store && k != id :: r[k] == store[k]
  {
    SetStatus(store, id, Confirmed)
  }

  /** The Reject button. */
  function Reject(store: OrderStore, id: string): (r: OrderStore)
    requires id in store
    ensures r.Keys == store.Keys
    ensures r[id] == store[id].(status := Rejected)
    ensures forall k | k in store && k != id :: r[k] == store[k]
  {
    SetStatus(store, id, Rejected)
  }

  /** The handlers do not look at the current status: accepting a rejected
      order confirms it, and the last decision wins. */
  lemma LastDecisionWins(store: OrderStore, id: string)
    requires id in store
    ensures Accept(Reject(store, id), id)[id].status == Confirmed
    ensures Reject(Accept(store, id), id)[id].status == Rejected
    ensures Accept(Reject(store, id), id) == Accept(store, id)
  {
  }

  /** Accept and Reject buttons are rendered only on pending orders. */
  predicate DecisionOffered(o: Order) {
    o.status == Pending
  }

  /** The Send Message button is rendered only on confirmed or rejected
      orders. */
  predicate MessageOffered(o: Order) {
    o.status == Confirmed || o.status == Rejected
  }

  /** Whether the console renders the control for an action on an order. */
  predicate ActionOffered(a: AdminAction, o: Order) {
    if a.SendText? then MessageOffered(o) else DecisionOffered(o)
  }

  datatype MessageError = EmptyMessage

  /** `handleSendMessage`: a message that is blank after trimming is refused
      without a write; otherwise the trimmed text is appended as an admin
      message after the existing thread. */
  function SendMessage(store: OrderStore, id: string, text: string, now: int): (r: Result<OrderStore, MessageError>)
    requires id in store
    ensures r.Failure? <==> Trim(text) == ""
    ensures r.Success? ==>
      && r.value.Keys == store.Keys
      && (forall k | k in store && k != id :: r.value[k] == store[k])
      && |r.value[id].messages| == |store[id].messages| + 1
      && r.value[id].messages[..|store[id].messages|] == store[id].messages
      && r.value[id].messages[|store[id].messages|] == Message(now, AdminSender, Trim(text))
      && r.value[id] == store[id].(messages := r.value[id].messages)
  {
    var body := Trim(text);
    if body == "" then Failure(EmptyMessage)
    else
      var o := store[id];
      Success(store[id := o.(messages := o.messages + [Message(now, AdminSender, body)])])
  }

  // ---------------------------------------------------------------------
  // Post-creation history of the store

  /** The admin's order actions, as the buttons issue them. */
  datatype AdminAction =
    | AcceptOrder(id: string)
    | RejectOrder(id: string)
    | SendText(id: string, text: string, now: int)

  /** One action. An action naming an order that is not in the store is not
      offered by the console and leaves the store as it is. */
  function Apply(store: OrderStore, a: AdminAction): (r: OrderStore)
    ensures r.Keys == store.Keys
  {
    if a.id !in store then store
    else match a
      case AcceptOrder(id) => Accept(store, id)
      case RejectOrder(id) => Reject(store, id)
      case SendText(id, text, now) =>
        match SendMessage(store, id, text, now)
        case Success(s) => s
        case Failure(_) => store
  }

  function ApplyAll(store: OrderStore, actions: seq<AdminAction>): (r: OrderStore)
    ensures r.Keys == store.Keys
    decreases |actions|
  {
    if |actions| == 0 then store else ApplyAll(Apply(store, actions[0]), actions[1..])
  }

  /** `later` is `earlier` after status and message changes only: the same
      orders, each with the same owner, customer, items, total and creation
      time, and each thread extended at its end. */
  ghost predicate OnlyStatusAndThreadGrow(earlier: OrderStore, later: OrderStore) {
    && later.Keys == earlier.Keys
    && forall k | k in earlier ::
         && later[k] == earlier[k].(status := later[k].status, messages := later[k].messages)
         && |earlier[k].messages| <= |later[k].messages|
         && later[k].messages[..|earlier[k].messages|] == earlier[k].messages
  }

  lemma GrowTransitive(a: OrderStore, b: OrderStore, c: OrderStore)
    requires OnlyStatusAndThreadGrow(a, b) && OnlyStatusAndThreadGrow(b, c)
    ensures OnlyStatusAndThreadGrow(a, c)
  {
    forall k | k in a
      ensures c[k].messages[..|a[k].messages|] == a[k].messages
    {
      assert c[k].messages[..|b[k].messages|][..|a[k].messages|] == c[k].messages[..|a[k].messages|];
    }
  }

  /** One action changes at most the status and the end of one thread. */
  lemma ApplyGrows(store: OrderStore, a: AdminAction)
    ensures OnlyStatusAndThreadGrow(store, Apply(store, a))
  {
    var next := Apply(store, a);
    forall k | k in store
      ensures next[k] == store[k].(status := next[k].status, messages := next[k].messages)
      ensures |store[k].messages| <= |next[k].messages|
      ensures next[k].messages[..|store[k].messages|] == store[k].messages
    {
      if k == a.id && a.SendText? {
        var r := SendMessage(store, k, a.text, a.now);
        if r.Success? {
          assert next[k] == r.value[k];
        }
      }
    }
  }

  /** Whatever the admin does, orders are never added or removed, only status
      and thread change, and the thread is append-only: earlier messages keep
      their content and order. */
  lemma {:induction false} ThreadIsAppendOnly(store: OrderStore, actions: seq<AdminAction>)
    ensures OnlyStatusAndThreadGrow(store, ApplyAll(store, actions))
    decreases |actions|
  {
    if |actions| == 0 {
      forall k | k in store ensures store[k].messages[..|store[k].messages|] == store[k].messages { }
    } else {
      var next := Apply(store, actions[0]);
      ApplyGrows(store, actions[0]);
      ThreadIsAppendOnly(next, actions[1..]);
      GrowTransitive(store, next, ApplyAll(next, actions[1..]));
    }
  }

  /** An action as the console can issue it: Accept and Reject are rendered
      only on a pending order and Send Message only on a confirmed or
      rejected one, so an action whose control is not rendered never happens
      and leaves the store as it is. */
  function ApplyOffered(store: OrderStore, a: AdminAction): (r: OrderStore)
    ensures r.Keys == store.Keys
    ensures a.id in store && !ActionOffered(a, store[a.id]) ==> r == store
    ensures a.AcceptOrder? && a.id in store && DecisionOffered(store[a.id]) ==> r[a.id].status == Confirmed
    ensures a.RejectOrder? && a.id in store && DecisionOffered(store[a.id]) ==> r[a.id].status == Rejected
    ensures forall k | k in store && k != a.id :: r[k] == store[k]
  {
    if a.id in store && !ActionOffered(a, store[a.id]) then store
    else Apply(store, a)
  }

  /** A message is only ever sent on a decided order: as long as no
      decision is taken, a pending order stays exactly as it was, whatever
      messages the admin tries to send. */
  lemma {:induction false} PendingOrderTakesNoMessage(store: OrderStore, actions: seq<AdminAction>, id: string)
    requires id in store && store[id].status == Pending
    requires forall k | 0 <= k < |actions| :: !actions[k].AcceptOrder? && !actions[k].RejectOrder?
    ensures ApplyAllOffered(store, actions)[id] == store[id]
    decreases |actions|
  {
    if |actions| > 0 {
      var next := ApplyOffered(store, actions[0]);
      assert next[id] == store[id];
      PendingOrderTakesNoMessage(next, actions[1..], id);
    }
  }

  function ApplyAllOffered(store: OrderStore, actions: seq<AdminAction>): (r: OrderStore)
    ensures r.Keys == store.Keys
    decreases |actions|
  {
    if |actions| == 0 then store else ApplyAllOffered(ApplyOffered(store, actions[0]), actions[1..])
  }

  /** The thread stays append-only when only offered actions are taken. */
  lemma {:induction false} OfferedThreadIsAppendOnly(store: OrderStore, actions: seq<AdminAction>)
    ensures OnlyStatusAndThreadGrow(store, ApplyAllOffered(store, actions))
    decreases |actions|
  {
    if |actions| == 0 {
      forall k | k in store ensures store[k].messages[..|store[k].messages|] == store[k].messages { }
    } else {
      var next := ApplyOffered(store, actions[0]);
      if next == store {
        forall k | k in store ensures store[k].messages[..|store[k].messages|] == store[k].messages { }
      } else {
        ApplyGrows(store, actions[0]);
      }
      OfferedThreadIsAppendOnly(next, actions[1..]);
      GrowTransitive(store, next, ApplyAllOffered(next, actions[1..]));
    }
  }

  /** Once an order is confirmed or rejected the console offers no decision
      on it again, so whatever the admin does afterwards its status stays. */
  lemma {:induction false} OfferedDecisionsAreFinal(store: OrderStore, actions: seq<AdminAction>, id: string)
    requires id in store && !DecisionOffered(store[id])
    ensures ApplyAllOffered(store, actions)[id].status == store[id].status
    decreases |actions|
  {
    if |actions| > 0 {
      var a := actions[0];
      var next := ApplyOffered(store, a);
      if a.id == id && ActionOffered(a, store[id]) {
        assert a.SendText?;
        var m := SendMessage(store, id, a.text, a.now);
        assert next == if m.Success? then m.value else store;
      }
      assert next[id].status == store[id].status;
      OfferedDecisionsAreFinal(next, actions[1..], id);
    }
  }

  // ---------------------------------------------------------------------
  // The order list and its tabs

  /** The console's list: a missing snapshot is empty, otherwise the
      snapshot's entries newest first. */
  function AdminOrderList(snapshot: Option<seq<Entry>>): (r: seq<Entry>)
    ensures NewestFirst(r)
    ensures snapshot.None? ==> r == []
    ensures snapshot.Some? ==> multiset(r) == multiset(snapshot.value)
  {
    match snapshot
    case None => []
    case Some(entries) => SortNewestFirst(entries)
  }

  /** `orders.filter(o => o.status === status)`. */
  function Bucket(s: seq<Entry>, status: string): (r: seq<Entry>)
    ensures forall k | 0 <= k < |r| :: r[k].order.status == status
    ensures forall x :: multiset(r)[x] == if x.order.status == status then multiset(s)[x] else 0
  {
    if |s| == 0 then []
    else
      var rest := Bucket(s[1..], status);
      assert s == [s[0]] + s[1..];
      if s[0].order.status == status then [s[0]] + rest else rest
  }

  /** A filter of a newest-first list is newest first. */
  lemma {:induction false} BucketKeepsOrder(s: seq<Entry>, status: string)
    requires NewestFirst(s)
    ensures NewestFirst(Bucket(s, status))
  {
    if |s| > 0 {
      BucketKeepsOrder(s[1..], status);
      var rest := Bucket(s[1..], status);
      forall x | x in rest ensures s[0].order.createdAt >= x.order.createdAt {
        assert x in multiset(rest);
        assert x in multiset(s[1..]);
        var j :| 0 <= j < |s[1..]| && s[1..][j] == x;
        assert s[j + 1] == x;
      }
    }
  }

  /** `r` is `s` with some entries left out: matching `r` against `s` from
      the left, greedily, uses up all of `r`. */
  ghost predicate IsSubsequence(r: seq<Entry>, s: seq<Entry>)
    decreases |s|
  {
    if |r| == 0 then true
    else if |s| == 0 then false
    else if r[0] == s[0] then IsSubsequence(r[1..], s[1..])
    else IsSubsequence(r, s[1..])
  }

  /** A tab lists its orders in the same relative order as the list it was
      filtered from. */
  lemma {:induction false} BucketKeepsRelativeOrder(s: seq<Entry>, status: string)
    ensures IsSubsequence(Bucket(s, status), s)
  {
    if |s| > 0 {
      BucketKeepsRelativeOrder(s[1..], status);
      var r := Bucket(s, status);
      if s[0].order.status == status {
        assert r[0] == s[0] && r[1..] == Bucket(s[1..], status);
      } else if |r| > 0 {
        assert r[0].order.status == status;
      }
    }
  }

  datatype Tabs = Tabs(pending: seq<Entry>, confirmed: seq<Entry>, rejected: seq<Entry>)

  function TabsOf(sorted: seq<Entry>): Tabs {
    Tabs(Bucket(sorted, Pending), Bucket(sorted, Confirmed), Bucket(sorted, Rejected))
  }

  /** Every listed order with one of the three statuses is in exactly the tab
      of its status, every tab keeps the list's relative order (and so stays
      newest first), and the tabs together hold no more than the list. */
  lemma TabsPartition(snapshot: Option<seq<Entry>>, x: Entry)
    ensures
      var list := AdminOrderList(snapshot);
      var t := TabsOf(list);
      && (x in t.pending <==> x in list && x.order.status == Pending)
      && (x in t.confirmed <==> x in list && x.order.status == Confirmed)
      && (x in t.rejected <==> x in list && x.order.status == Rejected)
      && NewestFirst(t.pending) && NewestFirst(t.confirmed) && NewestFirst(t.rejected)
      && |t.pending| + |t.confirmed| + |t.rejected| <= |list|
      && IsSubsequence(t.pending, list) && IsSubsequence(t.confirmed, list) && IsSubsequence(t.rejected, list)
  {
    var list := AdminOrderList(snapshot);
    var t := TabsOf(list);
    assert x in t.pending <==> x in multiset(t.pending);
    assert x in t.confirmed <==> x in multiset(t.confirmed);
    assert x in t.rejected <==> x in multiset(t.rejected);
    BucketKeepsOrder(list, Pending);
    BucketKeepsOrder(list, Confirmed);
    BucketKeepsOrder(list, Rejected);
    BucketsSize(list);
    BucketKeepsRelativeOrder(list, Pending);
    BucketKeepsRelativeOrder(list, Confirmed);
    BucketKeepsRelativeOrder(list, Rejected);
  }

  /** The three tabs never hold more orders than the list. */
  lemma {:induction false} BucketsSize(s: seq<Entry>)
    ensures |Bucket(s, Pending)| + |Bucket(s, Confirmed)| + |Bucket(s, Rejected)| <= |s|
  {
    if |s| > 0 {
      BucketsSize(s[1..]);
    }
  }
}
