/** What the server and a display owe for each request and message, said of the orders before and after
    it, field by field, and exactly what the functions of ServerSpec compute. */
module ServerLaws {
  import opened Wrappers
  import opened Model
  import opened ServerSpec

  // ----- messages, with all their fields -----

  ghost predicate IsOrderMessage(m: Message, o: Order) {
    m == Message(DISP_ORDER, ClientMode.INVALID, "", Some(o), -1, OrderStatus.INVALID, -1, ItemStatus.INVALID)
  }

  ghost predicate IsItemMessage(m: Message, k: int, id: int, st: ItemStatus) {
    m == Message(DISP_ITEM_UPDATE, ClientMode.INVALID, "", None, k, OrderStatus.INVALID, id, st)
  }

  ghost predicate IsStatusMessage(m: Message, k: int, st: OrderStatus) {
    m == Message(DISP_ORDER_UPDATE, ClientMode.INVALID, "", None, k, st, -1, ItemStatus.INVALID)
  }

  // ----- new orders -----

  /** The order as it arrived, but for the order ids and the status. */
  ghost predicate Numbered(o: Order, id: int, o': Order) {
    && o'.id == id && o'.status == OrderStatus.NEW && |o'.items| == |o.items|
    && forall i | 0 <= i < |o'.items| ::
         o'.items[i] == Item(id, o.items[i].id, o.items[i].status, o.items[i].desc, o.items[i].qty)
  }

  /** The stored orders are the old ones and one more, under the next id; the displays are sent that order. */
  ghost predicate Creates(s: State, o: Order, s': State, msgs: seq<Message>) {
    && s'.next == s.next + 1 && s'.orders.Keys == s.orders.Keys + {s.next}
    && (forall k | k in s.orders && k != s.next :: s'.orders[k] == s.orders[k])
    && Numbered(o, s.next, s'.orders[s.next])
    && |msgs| == 1 && IsOrderMessage(msgs[0], s'.orders[s.next])
  }

  // ----- item updates -----

  /** Position i has the first item with this id. */
  ghost predicate FirstWith(items: seq<Item>, id: int, i: nat) {
    i < |items| && items[i].id == id && forall j | 0 <= j < i :: items[j].id != id
  }

  ghost predicate HasItem(items: seq<Item>, id: int) {
    exists i: nat :: FirstWith(items, id, i)
  }

  /** The update moves an item that is NEW to IN_PROGRESS, or one that is IN_PROGRESS to DONE. */
  ghost predicate MayMove(items: seq<Item>, id: int, st: ItemStatus) {
    exists i: nat ::
      && FirstWith(items, id, i)
      && (|| (items[i].status == ItemStatus.NEW && st == ItemStatus.IN_PROGRESS)
          || (items[i].status == ItemStatus.IN_PROGRESS && st == ItemStatus.DONE))
  }

  /** The first item with this id has the new status; nothing else about the items is different. */
  ghost predicate ItemMoved(items: seq<Item>, id: int, st: ItemStatus, items': seq<Item>) {
    && |items'| == |items|
    && exists i: nat ::
         && FirstWith(items, id, i)
         && items'[i] == Item(items[i].orderId, items[i].id, st, items[i].desc, items[i].qty)
         && forall j | 0 <= j < |items| && j != i :: items'[j] == items[j]
  }

  /** The status of an order follows its items: it starts with the first item that starts, and is done
      when the last one is. */
  ghost predicate StatusFollows(o: Order, st: ItemStatus, o': Order) {
    if o.status == OrderStatus.NEW && st == ItemStatus.IN_PROGRESS then o'.status == OrderStatus.IN_PROGRESS
    else if o.status == OrderStatus.IN_PROGRESS && st == ItemStatus.DONE
            && forall i | 0 <= i < |o'.items| :: o'.items[i].status == ItemStatus.DONE
      then o'.status == OrderStatus.DONE
      else o'.status == o.status
  }

  /** Only order k is different; the displays are sent the change of the item, and then, if there is
      one, that of the order. */
  ghost predicate UpdatesItem(s: State, k: int, id: int, st: ItemStatus, s': State, msgs: seq<Message>)
    requires k in s.orders
  {
    && s'.next == s.next && s'.orders.Keys == s.orders.Keys
    && (forall j | j in s.orders && j != k :: s'.orders[j] == s.orders[j])
    && var o, o' := s.orders[k], s'.orders[k];
       && o'.id == o.id && ItemMoved(o.items, id, st, o'.items) && StatusFollows(o, st, o')
       && |msgs| == (if o'.status == o.status then 1 else 2)
       && IsItemMessage(msgs[0], k, id, st) && (|msgs| == 2 ==> IsStatusMessage(msgs[1], k, o'.status))
  }

  // ----- order updates -----

  /** Order k is gone, and nothing else is different; the displays are sent its delivery. */
  ghost predicate Delivers(s: State, k: int, s': State, msgs: seq<Message>) {
    && s'.next == s.next && s'.orders.Keys == s.orders.Keys - {k}
    && (forall j | j in s'.orders :: s'.orders[j] == s.orders[j])
    && |msgs| == 1 && IsStatusMessage(msgs[0], k, OrderStatus.DELIVERED)
  }

  // ----- requests -----

  ghost predicate Refuses(s: State, s': State, msgs: seq<Message>, verdict: Result<()>, reason: string) {
    s' == s && msgs == [] && verdict == Err(SemanticError(reason))
  }

  /** What the server owes for a request: which are accepted, the reason why the others are not, the
      state afterwards, and what the displays are sent. */
  ghost predicate Lawful(s: State, r: Request, s': State, msgs: seq<Message>, verdict: Result<()>) {
    match r
    case NewOrder(o) => verdict == Ok(()) && Creates(s, o, s', msgs)
    case ItemUpdate(k, id, st) =>
      if k !in s.orders then Refuses(s, s', msgs, verdict, "order not found")
      else if !HasItem(s.orders[k].items, id) then Refuses(s, s', msgs, verdict, "item not found")
      else if !MayMove(s.orders[k].items, id, st) then
        Refuses(s, s', msgs, verdict, "invalid item status transition")
      else verdict == Ok(()) && UpdatesItem(s, k, id, st, s', msgs)
    case OrderUpdate(k, st) =>
      if k !in s.orders then Refuses(s, s', msgs, verdict, "order not found")
      else if s.orders[k].status != OrderStatus.DONE || st != OrderStatus.DELIVERED then
        Refuses(s, s', msgs, verdict, "invalid order status transition")
      else verdict == Ok(()) && Delivers(s, k, s', msgs)
  }

  lemma FirstIsUnique(items: seq<Item>, id: int, i: nat, j: nat)
    requires FirstWith(items, id, i) && FirstWith(items, id, j)
    ensures i == j
  {
  }

  /** An item update is accepted if and only if the order is stored, an item has the id, and the first
      such item makes a step forward. */
  lemma ItemUpdateAcceptedExactly(s: State, k: int, id: int, st: ItemStatus)
    ensures var verdict := Verdict(s, ItemUpdate(k, id, st));
            && (verdict == Ok(()) <==> k in s.orders && MayMove(s.orders[k].items, id, st))
            && (verdict == Err(SemanticError("order not found")) <==> k !in s.orders)
            && (verdict == Err(SemanticError("item not found")) <==>
                k in s.orders && forall i | 0 <= i < |s.orders[k].items| :: s.orders[k].items[i].id != id)
            && (verdict.Ok? || verdict.error in {
                SemanticError("order not found"), SemanticError("item not found"),
                SemanticError("invalid item status transition")})
  {
    if k in s.orders {
      var items := s.orders[k].items;
      var found := FindItem(items, id);
      if found.Some? {
        assert FirstWith(items, id, found.value);
        if i: nat :| FirstWith(items, id, i) {
          FirstIsUnique(items, id, found.value, i);
        }
      }
    }
  }

  /** An order update is accepted if and only if it delivers a stored order that is DONE. */
  lemma OrderUpdateAcceptedExactly(s: State, k: int, st: OrderStatus)
    ensures var verdict := Verdict(s, OrderUpdate(k, st));
            && (verdict == Ok(()) <==>
                k in s.orders && s.orders[k].status == OrderStatus.DONE && st == OrderStatus.DELIVERED)
            && (verdict == Err(SemanticError("order not found")) <==> k !in s.orders)
            && (verdict.Ok? || verdict.error in {
                SemanticError("order not found"), SemanticError("invalid order status transition")})
  {
  }

  lemma NewOrderServed(s: State, o: Order)
    ensures Lawful(s, NewOrder(o), After(s, NewOrder(o)), Broadcasts(s, NewOrder(o)), Verdict(s, NewOrder(o)))
  {
  }

  lemma ItemMoves(o: Order, id: int, i: nat, st: ItemStatus)
    requires FindItem(o.items, id) == Some(i)
    ensures ItemMoved(o.items, id, st, SetItemStatus(o, i, st).items)
    ensures HasItem(o.items, id)
    ensures Forward(o.items[i].status, st) <==> MayMove(o.items, id, st)
  {
    assert FirstWith(o.items, id, i);
    if j: nat :| FirstWith(o.items, id, j) && Forward(o.items[j].status, st) {
      FirstIsUnique(o.items, id, i, j);
    }
  }

  lemma ItemUpdateServed(s: State, k: int, id: int, st: ItemStatus)
    ensures var r := ItemUpdate(k, id, st); Lawful(s, r, After(s, r), Broadcasts(s, r), Verdict(s, r))
  {
    if k in s.orders {
      var o := s.orders[k];
      var found := FindItem(o.items, id);
      if found.Some? {
        ItemMoves(o, id, found.value, st);
        if Forward(o.items[found.value].status, st) {
          ItemUpdateChanges(s, k, id, st, found.value);
        }
      }
    }
  }

  lemma ItemUpdateChanges(s: State, k: int, id: int, st: ItemStatus, i: nat)
    requires k in s.orders && FindItem(s.orders[k].items, id) == Some(i) && Forward(s.orders[k].items[i].status, st)
    ensures var r := ItemUpdate(k, id, st);
            UpdatesItem(s, k, id, st, After(s, r), Broadcasts(s, r)) && Verdict(s, r) == Ok(())
  {
    var r := ItemUpdate(k, id, st);
    ItemMoves(s.orders[k], id, i, st);
    assert After(s, r).orders[k].items == SetItemStatus(s.orders[k], i, st).items;
  }

  lemma OrderUpdateServed(s: State, k: int, st: OrderStatus)
    ensures var r := OrderUpdate(k, st); Lawful(s, r, After(s, r), Broadcasts(s, r), Verdict(s, r))
  {
  }

  lemma SameOrders(a: Orders, b: Orders)
    requires a.Keys == b.Keys && forall k | k in a :: a[k] == b[k]
    ensures a == b
  {
    assert forall k | k in a :: k in b && a[k] == b[k];
  }

  lemma SameItems(a: Order, b: Order)
    requires a.id == b.id && a.status == b.status && |a.items| == |b.items|
    requires forall i | 0 <= i < |a.items| :: a.items[i] == b.items[i]
    ensures a == b
  {
    assert a.items == b.items;
  }

  lemma CreatesUniquely(s: State, o: Order, s1: State, m1: seq<Message>, s2: State, m2: seq<Message>)
    requires Creates(s, o, s1, m1) && Creates(s, o, s2, m2)
    ensures s1 == s2 && m1 == m2
  {
    SameItems(s1.orders[s.next], s2.orders[s.next]);
    SameOrders(s1.orders, s2.orders);
  }

  lemma MovedUniquely(items: seq<Item>, id: int, st: ItemStatus, a: seq<Item>, b: seq<Item>)
    requires ItemMoved(items, id, st, a) && ItemMoved(items, id, st, b)
    ensures a == b
  {
    var i: nat :| FirstWith(items, id, i)
                  && a[i] == Item(items[i].orderId, items[i].id, st, items[i].desc, items[i].qty)
                  && forall j | 0 <= j < |items| && j != i :: a[j] == items[j];
    var k: nat :| FirstWith(items, id, k)
                  && b[k] == Item(items[k].orderId, items[k].id, st, items[k].desc, items[k].qty)
                  && forall j | 0 <= j < |items| && j != k :: b[j] == items[j];
    FirstIsUnique(items, id, i, k);
  }

  lemma UpdatesUniquely(s: State, k: int, id: int, st: ItemStatus, s1: State, m1: seq<Message>, s2: State,
                        m2: seq<Message>)
    requires k in s.orders && UpdatesItem(s, k, id, st, s1, m1) && UpdatesItem(s, k, id, st, s2, m2)
    ensures s1 == s2 && m1 == m2
  {
    MovedUniquely(s.orders[k].items, id, st, s1.orders[k].items, s2.orders[k].items);
    SameOrders(s1.orders, s2.orders);
  }

  lemma DeliversUniquely(s: State, k: int, s1: State, m1: seq<Message>, s2: State, m2: seq<Message>)
    requires Delivers(s, k, s1, m1) && Delivers(s, k, s2, m2)
    ensures s1 == s2 && m1 == m2
  {
    SameOrders(s1.orders, s2.orders);
  }

  lemma RequestIsLawful(s: State, r: Request)
    ensures Lawful(s, r, After(s, r), Broadcasts(s, r), Verdict(s, r))
  {
    match r {
      case NewOrder(o) => NewOrderServed(s, o);
      case ItemUpdate(k, id, st) => ItemUpdateServed(s, k, id, st);
      case OrderUpdate(k, st) => OrderUpdateServed(s, k, st);
    }
  }

  /** The server does what it owes, and the laws leave it no choice. */
  lemma ServedExactly(s: State, r: Request, s': State, msgs: seq<Message>, verdict: Result<()>)
    ensures Lawful(s, r, s', msgs, verdict) <==>
            s' == After(s, r) && msgs == Broadcasts(s, r) && verdict == Verdict(s, r)
  {
    RequestIsLawful(s, r);
    if Lawful(s, r, s', msgs, verdict) {
      ServedUniquely(s, r, s', msgs, verdict, After(s, r), Broadcasts(s, r), Verdict(s, r));
    }
  }

  lemma ServedUniquely(s: State, r: Request, s1: State, m1: seq<Message>, v1: Result<()>, s2: State, m2: seq<Message>,
                       v2: Result<()>)
    requires Lawful(s, r, s1, m1, v1) && Lawful(s, r, s2, m2, v2)
    ensures s1 == s2 && m1 == m2 && v1 == v2
  {
    if v1.Ok? {
      match r {
        case NewOrder(o) => CreatesUniquely(s, o, s1, m1, s2, m2);
        case ItemUpdate(k, id, st) => UpdatesUniquely(s, k, id, st, s1, m1, s2, m2);
        case OrderUpdate(k, st) => DeliversUniquely(s, k, s1, m1, s2, m2);
      }
    }
  }

  /** After a new order there is one stored order more, under a key that was not in use: it has the
      items that arrived, in their places. */
  lemma NewOrderIsStored(s: State, o: Order)
    requires forall k | k in s.orders :: k < s.next
    ensures var s', msgs := After(s, NewOrder(o)), Broadcasts(s, NewOrder(o));
            && s.next !in s.orders && Creates(s, o, s', msgs)
            && s'.orders.Keys - s.orders.Keys == {s.next} && s.orders.Items <= s'.orders.Items
  {
    NewOrderServed(s, o);
  }

  function NewOrders(rs: seq<Request>): nat {
    if rs == [] then 0 else NewOrders(rs[..|rs| - 1]) + if rs[|rs| - 1].NewOrder? then 1 else 0
  }

  /** Keys are given in order, from 1000, one to each new order. */
  lemma {:induction false} KeysCount(rs: seq<Request>)
    ensures Run(INITIAL, rs).next == 1000 + NewOrders(rs)
    ensures forall k | k in Run(INITIAL, rs).orders :: 1000 <= k < 1000 + NewOrders(rs)
  {
    if rs != [] {
      var init, r := rs[..|rs| - 1], rs[|rs| - 1];
      KeysCount(init);
      RequestIsLawful(Run(INITIAL, init), r);
    }
  }

  // ----- the snapshot -----

  predicate Increasing(keys: seq<int>) {
    forall i, j | 0 <= i < j < |keys| :: keys[i] < keys[j]
  }

  /** One message for each stored order, by increasing key. */
  ghost predicate Lists(orders: Orders, keys: seq<int>, msgs: seq<Message>) {
    && Increasing(keys) && (forall k :: k in keys <==> k in orders)
    && |msgs| == |keys| && forall i | 0 <= i < |keys| :: keys[i] in orders && IsOrderMessage(msgs[i], orders[keys[i]])
  }

  ghost predicate InKeyOrder(orders: Orders, msgs: seq<Message>) {
    exists keys :: Lists(orders, keys, msgs)
  }

  lemma IncreasingMore(k: int, keys: seq<int>)
    requires Increasing(keys) && forall j | j in keys :: k < j
    ensures Increasing([k] + keys) && forall j :: j in [k] + keys <==> j == k || j in keys
  {
    var all := [k] + keys;
    forall i, j | 0 <= i < j < |all|
      ensures all[i] < all[j]
    {
      assert all[j] in keys;
    }
  }

  lemma ListsMore(orders: Orders, k: int, keys: seq<int>, m: Message, msgs: seq<Message>)
    requires k in orders && (forall j | j in orders :: k <= j) && IsOrderMessage(m, orders[k])
    requires Lists(orders - {k}, keys, msgs)
    ensures Lists(orders, [k] + keys, [m] + msgs)
  {
    var all := [k] + keys;
    IncreasingMore(k, keys);
    assert forall j :: j in orders - {k} <==> j in orders && j != k;
    forall i | 0 <= i < |all|
      ensures all[i] in orders && IsOrderMessage(([m] + msgs)[i], orders[all[i]])
    {
      if i > 0 {
        assert all[i] == keys[i - 1] && ([m] + msgs)[i] == msgs[i - 1];
      }
    }
  }

  lemma {:induction false} SnapshotLists(orders: Orders) returns (keys: seq<int>)
    ensures Lists(orders, keys, Snapshot(orders))
    decreases orders.Keys
  {
    if orders == map[] {
      keys := [];
    } else {
      var k := MinKey(orders);
      var rest := SnapshotLists(orders - {k});
      keys := [k] + rest;
      ListsMore(orders, k, rest, OrderMessage(DISP_ORDER, orders[k]), Snapshot(orders - {k}));
    }
  }

  lemma {:induction false} ListsIsSnapshot(orders: Orders, keys: seq<int>, msgs: seq<Message>)
    requires Lists(orders, keys, msgs)
    ensures msgs == Snapshot(orders)
    decreases |keys|
  {
    if keys == [] {
      NothingListed(orders);
    } else {
      LeastComesFirst(orders, keys, msgs);
      ListsRest(orders, keys, msgs);
      ListsIsSnapshot(orders - {keys[0]}, keys[1..], msgs[1..]);
      FirstOfSnapshot(orders, keys[0], msgs);
    }
  }

  lemma NothingListed(orders: Orders)
    requires forall k :: k !in orders
    ensures Snapshot(orders) == []
  {
    NonEmpty(orders);
  }

  lemma FirstOfSnapshot(orders: Orders, k: int, msgs: seq<Message>)
    requires orders != map[] && MinKey(orders) == k && msgs != []
    requires IsOrderMessage(msgs[0], orders[k]) && msgs[1..] == Snapshot(orders - {k})
    ensures msgs == Snapshot(orders)
  {
    assert msgs == [msgs[0]] + msgs[1..];
  }

  lemma LeastComesFirst(orders: Orders, keys: seq<int>, msgs: seq<Message>)
    requires Lists(orders, keys, msgs) && keys != []
    ensures keys[0] in orders && MinKey(orders) == keys[0]
  {
    assert MinKey(orders) in keys;
  }

  lemma ListsRest(orders: Orders, keys: seq<int>, msgs: seq<Message>)
    requires Lists(orders, keys, msgs) && keys != []
    ensures Lists(orders - {keys[0]}, keys[1..], msgs[1..])
  {
    forall j
      ensures j in keys[1..] <==> j in orders - {keys[0]}
    {
      assert keys == [keys[0]] + keys[1..];
    }
  }

  /** The snapshot is exactly that list. */
  lemma SnapshotExactly(orders: Orders, msgs: seq<Message>)
    ensures msgs == Snapshot(orders) <==> InKeyOrder(orders, msgs)
  {
    var keys := SnapshotLists(orders);
    if keys :| Lists(orders, keys, msgs) {
      ListsIsSnapshot(orders, keys, msgs);
    }
  }

  lemma SnapshotIsListed(orders: Orders)
    ensures InKeyOrder(orders, Snapshot(orders))
  {
    var keys := SnapshotLists(orders);
  }

  // ----- the display -----

  /** What one message does to what a display shows. */
  ghost predicate Displays(view: Orders, m: Message, r: Result<Orders>) {
    match m.kind
    case DISP_HEARTBEAT => r == Ok(view)
    case DISP_ORDER =>
      if m.order.None? then r == Err(ProtocolError)
      else
        && r.Ok? && r.value.Keys == view.Keys + {m.order.value.id}
        && forall k | k in r.value :: r.value[k] == if k == m.order.value.id then m.order.value else view[k]
    case DISP_ITEM_UPDATE =>
      if m.orderId < 0 || m.itemId < 0 || m.itemStatus == ItemStatus.INVALID || m.orderId !in view
         || !HasItem(view[m.orderId].items, m.itemId)
      then r == Err(ProtocolError)
      else
        && r.Ok? && r.value.Keys == view.Keys
        && (forall k | k in view && k != m.orderId :: r.value[k] == view[k])
        && r.value[m.orderId].id == view[m.orderId].id && r.value[m.orderId].status == view[m.orderId].status
        && ItemMoved(view[m.orderId].items, m.itemId, m.itemStatus, r.value[m.orderId].items)
    case DISP_ORDER_UPDATE =>
      if m.orderId < 0 || m.orderStatus == OrderStatus.INVALID || m.orderId !in view then r == Err(ProtocolError)
      else if m.orderStatus == OrderStatus.DELIVERED then
        r.Ok? && r.value.Keys == view.Keys - {m.orderId} && forall k | k in r.value :: r.value[k] == view[k]
      else
        && r.Ok? && r.value.Keys == view.Keys
        && (forall k | k in view && k != m.orderId :: r.value[k] == view[k])
        && r.value[m.orderId] == Order(view[m.orderId].id, m.orderStatus, view[m.orderId].items)
    case _ => r == Err(ProtocolError)
  }

  lemma ShowDisplays(view: Orders, m: Message)
    ensures Displays(view, m, Show(view, m))
  {
    if m.kind == DISP_ITEM_UPDATE && m.orderId in view {
      var o := view[m.orderId];
      var found := FindItem(o.items, m.itemId);
      if found.Some? {
        ItemMoves(o, m.itemId, found.value, m.itemStatus);
      }
    }
  }

  lemma DisplaysUniquely(view: Orders, m: Message, a: Result<Orders>, b: Result<Orders>)
    requires Displays(view, m, a) && Displays(view, m, b)
    ensures a == b
  {
    if a.Ok? && b.Ok? {
      if m.kind == DISP_ITEM_UPDATE {
        MovedUniquely(view[m.orderId].items, m.itemId, m.itemStatus, a.value[m.orderId].items,
            b.value[m.orderId].items);
      }
      SameOrders(a.value, b.value);
    }
  }

  /** A display does exactly that. */
  lemma ShowExactly(view: Orders, m: Message, r: Result<Orders>)
    ensures r == Show(view, m) <==> Displays(view, m, r)
  {
    ShowDisplays(view, m);
    if Displays(view, m, r) {
      DisplaysUniquely(view, m, r, Show(view, m));
    }
  }
}
