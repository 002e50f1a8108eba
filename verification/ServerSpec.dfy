/** What the operations of class Server do (src/server.cpp:72-152), on values, and how a display
    replays their broadcasts (src/display_main.cpp:53-108). */
module ServerSpec {
  import opened Wrappers
  import opened Model

  type Orders = map<int, Order>

  /** m_orders and m_next_order_id. */
  datatype State = State(orders: Orders, next: int)

  const FIRST_ID := 1000
  const INITIAL := State(map[], FIRST_ID)

  datatype Request =
    | NewOrder(order: Order)
    | ItemUpdate(orderId: int, itemId: int, itemStatus: ItemStatus)
    | OrderUpdate(orderId: int, orderStatus: OrderStatus)

  /** The state after one change, and the message that announces it. */
  datatype Change = Change(state: State, msg: Message)

  /** The order as the server stores it: the new id everywhere, and status NEW. */
  function Assign(o: Order, id: int): Order {
    Order(id, OrderStatus.NEW, seq(|o.items|, i requires 0 <= i < |o.items| => o.items[i].(orderId := id)))
  }

  predicate Forward(cur: ItemStatus, next: ItemStatus) {
    (cur == ItemStatus.NEW && next == ItemStatus.IN_PROGRESS)
        || (cur == ItemStatus.IN_PROGRESS && next == ItemStatus.DONE)
  }

  function SetItemStatus(o: Order, i: nat, st: ItemStatus): Order
    requires i < |o.items|
  {
    o.(items := o.items[i := o.items[i].(status := st)])
  }

  predicate AllDone(items: seq<Item>) {
    forall i | 0 <= i < |items| :: items[i].status == ItemStatus.DONE
  }

  /** The first change of a request, up to its first broadcast. */
  function Start(s: State, r: Request): Result<Change> {
    match r
    case NewOrder(o) =>
      var order := Assign(o, s.next);
      Ok(Change(State(s.orders[s.next := order], s.next + 1), OrderMessage(DISP_ORDER, order)))
    case ItemUpdate(orderId, itemId, st) =>
      if orderId !in s.orders then Err(SemanticError("order not found"))
      else
        var order := s.orders[orderId];
        var found := FindItem(order.items, itemId);
        if found.None? then Err(SemanticError("item not found"))
        else if !Forward(order.items[found.value].status, st) then Err(SemanticError("invalid item status transition"))
        else
          var order' := SetItemStatus(order, found.value, st);
          Ok(Change(s.(orders := s.orders[orderId := order']), ItemMessage(DISP_ITEM_UPDATE, orderId, itemId, st)))
    case OrderUpdate(orderId, st) =>
      if orderId !in s.orders then Err(SemanticError("order not found"))
      else
        var order := s.orders[orderId];
        if order.status != OrderStatus.DONE || st != OrderStatus.DELIVERED then
          Err(SemanticError("invalid order status transition"))
        else
          Ok(Change(s.(orders := s.orders[orderId := order.(status := OrderStatus.DELIVERED)]),
                    StatusMessage(DISP_ORDER_UPDATE, orderId, OrderStatus.DELIVERED)))
  }

  /** The automatic order transition after an item update, if one is due. */
  function Follow(s: State, r: Request): Option<Change> {
    match r
    case ItemUpdate(orderId, _, st) =>
      if orderId !in s.orders then None
      else
        var order := s.orders[orderId];
        if st == ItemStatus.IN_PROGRESS && order.status == OrderStatus.NEW then
          Some(SetOrderStatus(s, orderId, OrderStatus.IN_PROGRESS))
        else if st == ItemStatus.DONE && order.status == OrderStatus.IN_PROGRESS && AllDone(order.items) then
          Some(SetOrderStatus(s, orderId, OrderStatus.DONE))
        else None
    case _ => None
  }

  function SetOrderStatus(s: State, orderId: int, st: OrderStatus): Change
    requires orderId in s.orders
  {
    Change(s.(orders := s.orders[orderId := s.orders[orderId].(status := st)]),
        StatusMessage(DISP_ORDER_UPDATE, orderId, st))
  }

  /** What is left to do after the broadcasts: a delivered order is erased. */
  function Finish(s: State, r: Request): State {
    if r.OrderUpdate? then s.(orders := s.orders - {r.orderId}) else s
  }

  /** The final state of an accepted request, and its broadcasts in order. */
  datatype Outcome = Outcome(state: State, msgs: seq<Message>)

  function Apply(s: State, r: Request): Result<Outcome> {
    var first :- Start(s, r);
    match Follow(first.state, r)
    case None => Ok(Outcome(Finish(first.state, r), [first.msg]))
    case Some(second) => Ok(Outcome(Finish(second.state, r), [first.msg, second.msg]))
  }

  /** What the caller is told. */
  function Verdict(s: State, r: Request): Result<()> {
    match Apply(s, r)
    case Ok(_) => Ok(())
    case Err(e) => Err(e)
  }

  // ----- runs -----

  /** A rejected request changes nothing. */
  function After(s: State, r: Request): State {
    if Apply(s, r).Ok? then Apply(s, r).value.state else s
  }

  function Broadcasts(s: State, r: Request): seq<Message> {
    if Apply(s, r).Ok? then Apply(s, r).value.msgs else []
  }

  function Run(s: State, rs: seq<Request>): State {
    if rs == [] then s else After(Run(s, rs[..|rs| - 1]), rs[|rs| - 1])
  }

  /** All the broadcasts of a run. */
  function Log(s: State, rs: seq<Request>): seq<Message> {
    if rs == [] then [] else Log(s, rs[..|rs| - 1]) + Broadcasts(Run(s, rs[..|rs| - 1]), rs[|rs| - 1])
  }

  lemma {:induction false} RunAppend(s: State, a: seq<Request>, b: seq<Request>)
    ensures Run(s, a + b) == Run(Run(s, a), b)
  {
    if b == [] {
      assert a + b == a;
    } else {
      assert (a + b)[..|a + b| - 1] == a + b[..|b| - 1];
      RunAppend(s, a, b[..|b| - 1]);
    }
  }

  predicate AllAccepted(s: State, rs: seq<Request>) {
    rs == [] || (AllAccepted(s, rs[..|rs| - 1]) && Apply(Run(s, rs[..|rs| - 1]), rs[|rs| - 1]).Ok?)
  }

  /** The requests of a run that the server accepts. */
  function Accepted(s: State, rs: seq<Request>): seq<Request> {
    if rs == [] then []
    else
      var init, r := rs[..|rs| - 1], rs[|rs| - 1];
      Accepted(s, init) + if Apply(Run(s, init), r).Ok? then [r] else []
  }

  /** Each of them is accepted at its place, and they alone make up the run. */
  lemma {:induction false} AcceptedMakeTheRun(s: State, rs: seq<Request>)
    ensures AllAccepted(s, Accepted(s, rs)) && Run(s, Accepted(s, rs)) == Run(s, rs)
    ensures Log(s, Accepted(s, rs)) == Log(s, rs)
  {
    if rs != [] {
      var init, r := rs[..|rs| - 1], rs[|rs| - 1];
      AcceptedMakeTheRun(s, init);
      var before := Accepted(s, init);
      if Apply(Run(s, init), r).Ok? {
        assert (before + [r])[..|before|] == before;
      } else {
        assert before + [] == before && Log(s, init) + [] == Log(s, init);
      }
    }
  }

  // ----- the snapshot of register_display -----

  ghost predicate IsMinKey(keys: set<int>, k: int) {
    k in keys && forall j | j in keys :: k <= j
  }

  ghost function MinKey(orders: Orders): (k: int)
    requires orders != map[]
    ensures k in orders && forall j | j in orders :: k <= j
  {
    MinKeyExists(orders);
    var k :| IsMinKey(orders.Keys, k);
    k
  }

  lemma MinKeyExists(orders: Orders)
    requires orders != map[]
    ensures exists k :: IsMinKey(orders.Keys, k)
  {
    NonEmpty(orders);
    var k :| k in orders;
    MinKeyFrom(orders.Keys, k);
  }

  lemma NonEmpty(orders: Orders)
    ensures orders == map[] || exists k :: k in orders
  {
    if forall k :: k !in orders {
      var none: Orders := map[];
      assert forall k :: k in orders <==> k in none;
      assert orders == none;
    }
  }

  lemma {:induction false} MinKeyFrom(keys: set<int>, x: int)
    requires x in keys
    ensures exists k :: IsMinKey(keys, k)
    decreases |keys|
  {
    if y :| y in keys && y < x {
      MinKeyFrom(keys - {x}, y);
      var k :| IsMinKey(keys - {x}, k);
      assert forall j | j in keys :: j == x || j in keys - {x};
      assert IsMinKey(keys, k);
    } else {
      assert IsMinKey(keys, x);
    }
  }

  /** The messages of register_display: every stored order, by increasing id. */
  ghost function Snapshot(orders: Orders): seq<Message>
    decreases orders.Keys
  {
    if orders == map[] then []
    else
      var k := MinKey(orders);
      [OrderMessage(DISP_ORDER, orders[k])] + Snapshot(orders - {k})
  }

  // ----- the display's side -----

  /** handle_disp_order, handle_disp_item_update, handle_disp_order_update and the dispatch around them. */
  function Show(view: Orders, m: Message): Result<Orders> {
    match m.kind
    case DISP_ORDER =>
      if !m.HasOrder() then Err(ProtocolError)
      else Ok(view[m.order.value.id := m.order.value])
    case DISP_ITEM_UPDATE =>
      if !m.HasOrderId() || !m.HasItemId() || !m.HasItemStatus() then Err(ProtocolError)
      else if m.orderId !in view then Err(ProtocolError)
      else
        var order := view[m.orderId];
        var found := FindItem(order.items, m.itemId);
        if found.None? then Err(ProtocolError)
        else Ok(view[m.orderId := SetItemStatus(order, found.value, m.itemStatus)])
    case DISP_ORDER_UPDATE =>
      if !m.HasOrderId() || !m.HasOrderStatus() then Err(ProtocolError)
      else if m.orderId !in view then Err(ProtocolError)
      else if m.orderStatus == OrderStatus.DELIVERED then Ok(view - {m.orderId})
      else Ok(view[m.orderId := view[m.orderId].(status := m.orderStatus)])
    case DISP_HEARTBEAT => Ok(view)
    case _ => Err(ProtocolError)
  }

  function Replay(view: Orders, msgs: seq<Message>): Result<Orders> {
    if msgs == [] then Ok(view)
    else
      var before :- Replay(view, msgs[..|msgs| - 1]);
      Show(before, msgs[|msgs| - 1])
  }

  lemma ReplayOne(view: Orders, m: Message)
    ensures Replay(view, [m]) == Show(view, m)
  {
    assert [m][..0] == [];
  }

  lemma {:induction false} ReplayAppend(view: Orders, a: seq<Message>, b: seq<Message>)
    ensures Replay(view, a + b) == if Replay(view, a).Err? then Replay(view, a) else Replay(Replay(view, a).value, b)
  {
    if b == [] {
      assert a + b == a;
    } else {
      assert (a + b)[..|a + b| - 1] == a + b[..|b| - 1];
      ReplayAppend(view, a, b[..|b| - 1]);
    }
  }

  /** The orders that are not on their way out: process_order_update marks an order DELIVERED
      and broadcasts that before it erases the order. */
  function Visible(orders: Orders): Orders {
    map k | k in orders && orders[k].status != OrderStatus.DELIVERED :: orders[k]
  }
}
