/** Work over whole runs: how much an order needs, that none is lost, and which orders can be delivered. */
module Delivery {
  import opened Wrappers
  import opened Model
  import opened Text
  import opened WireProofs
  import opened ServerSpec
  import opened ServerProofs

  // ----- conservation of work -----

  /** The item updates that an item still needs. */
  function Weight(st: ItemStatus): nat {
    match st
    case NEW => 2
    case IN_PROGRESS => 1
    case DONE => 0
    case INVALID => 0
  }

  function ItemsWork(items: seq<Item>): nat {
    if items == [] then 0 else ItemsWork(items[..|items| - 1]) + Weight(items[|items| - 1].status)
  }

  lemma {:induction false} ItemsWorkUpdate(items: seq<Item>, i: nat, x: Item)
    requires i < |items|
    ensures ItemsWork(items[i := x]) == ItemsWork(items) - Weight(items[i].status) + Weight(x.status)
  {
    var init := items[..|items| - 1];
    if i == |items| - 1 {
      assert items[i := x][..i] == init;
    } else {
      ItemsWorkUpdate(init, i, x);
      assert items[i := x][..|items| - 1] == init[i := x];
    }
  }

  lemma {:induction false} ItemsWorkSame(a: seq<Item>, b: seq<Item>)
    requires |a| == |b| && forall i | 0 <= i < |a| :: a[i].status == b[i].status
    ensures ItemsWork(a) == ItemsWork(b)
  {
    if a != [] {
      ItemsWorkSame(a[..|a| - 1], b[..|b| - 1]);
    }
  }

  lemma {:induction false} ItemsWorkZero(items: seq<Item>)
    requires forall i | 0 <= i < |items| :: items[i].status != ItemStatus.INVALID
    ensures ItemsWork(items) == 0 <==> AllDone(items)
  {
    if items != [] {
      var init, last := items[..|items| - 1], items[|items| - 1];
      ItemsWorkZero(init);
      assert items == init + [last];
      AllDoneSnoc(init, last);
    }
  }

  lemma AllDoneSnoc(init: seq<Item>, last: Item)
    ensures AllDone(init + [last]) <==> AllDone(init) && last.status == ItemStatus.DONE
  {
    var items := init + [last];
    if AllDone(items) {
      assert items[|init|] == last;
      assert forall i | 0 <= i < |init| :: init[i] == items[i];
    }
  }

  lemma {:induction false} ItemsWorkNew(items: seq<Item>)
    requires AllNew(items)
    ensures ItemsWork(items) == 2 * |items|
  {
    if items != [] {
      ItemsWorkNew(items[..|items| - 1]);
    }
  }

  /** The work left in the orders with keys from FIRST_ID up to, not including, n. */
  function WorkBelow(orders: Orders, n: int): nat
    decreases n - FIRST_ID
  {
    if n <= FIRST_ID then 0
    else WorkBelow(orders, n - 1) + if n - 1 in orders then ItemsWork(orders[n - 1].items) else 0
  }

  function WorkLeft(s: State): nat {
    WorkBelow(s.orders, s.next)
  }

  lemma {:induction false} WorkBelowSame(a: Orders, b: Orders, n: int)
    requires forall k | FIRST_ID <= k < n :: (k in a <==> k in b) && (k in a ==> a[k] == b[k])
    ensures WorkBelow(a, n) == WorkBelow(b, n)
    decreases n - FIRST_ID
  {
    if n > FIRST_ID {
      WorkBelowSame(a, b, n - 1);
      assert n - 1 in a <==> n - 1 in b;
    }
  }

  lemma {:induction false} WorkBelowUpdate(orders: Orders, k: int, o: Order, n: int)
    requires FIRST_ID <= k < n && k in orders
    ensures WorkBelow(orders[k := o], n) == WorkBelow(orders, n) - ItemsWork(orders[k].items) + ItemsWork(o.items)
    decreases n - FIRST_ID
  {
    if k == n - 1 {
      WorkBelowSame(orders[k := o], orders, n - 1);
    } else {
      WorkBelowUpdate(orders, k, o, n - 1);
    }
  }

  lemma {:induction false} WorkBelowErase(orders: Orders, k: int, n: int)
    requires FIRST_ID <= k < n && k in orders
    ensures WorkBelow(orders - {k}, n) == WorkBelow(orders, n) - ItemsWork(orders[k].items)
    decreases n - FIRST_ID
  {
    if k == n - 1 {
      WorkBelowSame(orders - {k}, orders, n - 1);
    } else {
      WorkBelowErase(orders, k, n - 1);
    }
  }

  /** The work that one request brings in. */
  function Brought(r: Request): nat {
    if r.NewOrder? then ItemsWork(r.order.items) else 0
  }

  /** The work that one request does. */
  function Done(s: State, r: Request): nat {
    if r.ItemUpdate? && Apply(s, r).Ok? then 1 else 0
  }

  lemma StepConserves(s: State, r: Request)
    requires Inv(s) && Admissible(s, r)
    ensures Done(s, r) + WorkLeft(After(s, r)) == WorkLeft(s) + Brought(r)
  {
    if Apply(s, r).Ok? {
      var s' := After(s, r);
      match r {
        case NewOrder(o) =>
          WorkBelowSame(s'.orders, s.orders, s.next);
          ItemsWorkSame(Assign(o, s.next).items, o.items);
        case ItemUpdate(orderId, itemId, st) =>
          ItemUpdateOutcome(s, r);
          var o := s.orders[orderId];
          var i := FindItem(o.items, itemId).value;
          WorkBelowUpdate(s.orders, orderId, Updated(o, i, st), s.next);
          ItemsWorkUpdate(o.items, i, o.items[i].(status := st));
        case OrderUpdate(orderId, st) =>
          WorkBelowErase(s.orders, orderId, s.next);
          assert s'.orders == s.orders - {orderId};
          StoredItemsValid(s.orders[orderId], orderId);
          ItemsWorkZero(s.orders[orderId].items);
      }
    }
  }

  lemma StoredItemsValid(o: Order, k: int)
    requires Stored(o, k)
    ensures forall i | 0 <= i < |o.items| :: o.items[i].status != ItemStatus.INVALID
  {
    forall i | 0 <= i < |o.items|
      ensures o.items[i].status != ItemStatus.INVALID
    {
      assert o.items[i] in o.items;
    }
  }

  function TotalBrought(rs: seq<Request>): nat {
    if rs == [] then 0 else TotalBrought(rs[..|rs| - 1]) + Brought(rs[|rs| - 1])
  }

  function TotalDone(s: State, rs: seq<Request>): nat {
    if rs == [] then 0 else TotalDone(s, rs[..|rs| - 1]) + Done(Run(s, rs[..|rs| - 1]), rs[|rs| - 1])
  }

  /** Conservation of work: over every run, the accepted item updates and the work left in the
      stored orders add up to the work of all the orders ever created. */
  lemma {:induction false} WorkIsConserved(rs: seq<Request>)
    requires AdmissibleRun(INITIAL, rs)
    ensures TotalDone(INITIAL, rs) + WorkLeft(Run(INITIAL, rs)) == TotalBrought(rs)
  {
    if rs != [] {
      var init, r := rs[..|rs| - 1], rs[|rs| - 1];
      WorkIsConserved(init);
      InvOfRun(init);
      StepConserves(Run(INITIAL, init), r);
    }
  }

  // ----- which orders can be delivered -----

  /** The item is the one that find_item returns for its id. */
  predicate First(items: seq<Item>, i: nat)
    requires i < |items|
  {
    forall j | 0 <= j < i :: items[j].id != items[i].id
  }

  /** No request can bring the order to delivery: an item hidden behind another of the same id is
      not DONE, or the order is NEW and no item that requests can reach is NEW. */
  predicate Stuck(o: Order) {
    || (exists i | 0 <= i < |o.items| :: !First(o.items, i) && o.items[i].status != ItemStatus.DONE)
    || (o.status == OrderStatus.NEW && forall i | 0 <= i < |o.items| ::
       First(o.items, i) ==> o.items[i].status != ItemStatus.NEW)
  }

  lemma FoundIsFirst(items: seq<Item>, id: int)
    requires FindItem(items, id).Some?
    ensures First(items, FindItem(items, id).value)
  {
  }

  lemma FirstIsFound(items: seq<Item>, i: nat)
    requires i < |items| && First(items, i)
    ensures FindItem(items, items[i].id) == Some(i)
  {
  }

  lemma FirstKept(o: Order, i: nat, st: ItemStatus, j: nat)
    requires i < |o.items| && j < |o.items|
    ensures First(Updated(o, i, st).items, j) <==> First(o.items, j)
  {
    var items, items' := o.items, Updated(o, i, st).items;
    assert forall k | 0 <= k < |items| :: items'[k].id == items[k].id;
    if First(items', j) {
      assert forall k | 0 <= k < j :: items[k].id == items'[k].id;
    }
  }

  lemma UpdateKeepsStuck(o: Order, k: int, i: nat, st: ItemStatus)
    requires Stored(o, k) && i < |o.items| && First(o.items, i) && Forward(o.items[i].status, st)
    ensures Stuck(o) ==> Stuck(Updated(o, i, st))
  {
    if Stuck(o) {
      var o' := Updated(o, i, st);
      forall j: nat | j < |o.items|
        ensures First(o'.items, j) <==> First(o.items, j)
      {
        FirstKept(o, i, st, j);
      }
      if j :| 0 <= j < |o.items| && !First(o.items, j) && o.items[j].status != ItemStatus.DONE {
        assert !First(o'.items, j) && o'.items[j].status != ItemStatus.DONE;
      } else {
        assert o.items[i].status != ItemStatus.NEW;
        assert o'.status == OrderStatus.NEW;
      }
    }
  }

  lemma StuckStep(s: State, r: Request, k: int)
    requires Inv(s) && Admissible(s, r)
    requires k in s.orders && Stuck(s.orders[k])
    ensures k in After(s, r).orders && Stuck(After(s, r).orders[k])
  {
    if Apply(s, r).Ok? {
      match r {
        case NewOrder(o) =>
        case ItemUpdate(orderId, itemId, st) =>
          ItemUpdateOutcome(s, r);
          if orderId == k {
            var o := s.orders[k];
            FoundIsFirst(o.items, itemId);
            UpdateKeepsStuck(o, k, FindItem(o.items, itemId).value, st);
          }
        case OrderUpdate(orderId, st) =>
      }
    }
  }

  lemma {:induction false} StuckForever(s: State, rs: seq<Request>, k: int)
    requires Inv(s) && AdmissibleRun(s, rs)
    requires k in s.orders && Stuck(s.orders[k])
    ensures Inv(Run(s, rs)) && k in Run(s, rs).orders && Stuck(Run(s, rs).orders[k])
  {
    if rs != [] {
      StuckForever(s, rs[..|rs| - 1], k);
      InvKept(Run(s, rs[..|rs| - 1]), rs[|rs| - 1]);
      StuckStep(Run(s, rs[..|rs| - 1]), rs[|rs| - 1], k);
    }
  }

  lemma AcceptedSnoc(s: State, rs: seq<Request>, r: Request)
    requires AllAccepted(s, rs) && AdmissibleRun(s, rs) && Apply(Run(s, rs), r).Ok? && Admissible(Run(s, rs), r)
    ensures AllAccepted(s, rs + [r]) && AdmissibleRun(s, rs + [r]) && Run(s, rs + [r]) == After(Run(s, rs), r)
  {
    assert (rs + [r])[..|rs|] == rs;
  }

  lemma UpdateKeepsUnstuck(o: Order, k: int, i: nat, st: ItemStatus)
    requires Stored(o, k) && i < |o.items| && First(o.items, i) && Forward(o.items[i].status, st)
    requires o.status == OrderStatus.NEW ==> st == ItemStatus.IN_PROGRESS
    ensures !Stuck(o) ==> !Stuck(Updated(o, i, st))
  {
    if !Stuck(o) {
      var o' := Updated(o, i, st);
      forall j: nat | j < |o.items|
        ensures First(o'.items, j) <==> First(o.items, j)
      {
        FirstKept(o, i, st, j);
      }
      assert o'.status != OrderStatus.NEW;
    }
  }

  /** An order that is neither stuck nor DONE has an item update that the server accepts, and
      one unit of work less after it. */
  lemma NextUpdate(s: State, k: int) returns (r: Request)
    requires Inv(s) && k in s.orders && !Stuck(s.orders[k]) && s.orders[k].status != OrderStatus.DONE
    ensures r.ItemUpdate? && r.orderId == k && Apply(s, r).Ok?
    ensures k in After(s, r).orders && !Stuck(After(s, r).orders[k])
    ensures ItemsWork(After(s, r).orders[k].items) == ItemsWork(s.orders[k].items) - 1
  {
    var o := s.orders[k];
    StoredItemsValid(o, k);
    var i :| 0 <= i < |o.items| && First(o.items, i)
             && if o.status == OrderStatus.NEW then o.items[i].status == ItemStatus.NEW
                else o.items[i].status != ItemStatus.DONE;
    var st := if o.items[i].status == ItemStatus.NEW then ItemStatus.IN_PROGRESS else ItemStatus.DONE;
    r := ItemUpdate(k, o.items[i].id, st);
    FirstIsFound(o.items, i);
    UpdateKeepsUnstuck(o, k, i, st);
    ItemsWorkUpdate(o.items, i, o.items[i].(status := st));
    ItemUpdateOutcome(s, r);
  }

  /** While there is work left, one more accepted update takes one unit off. */
  lemma OneOff(s: State, k: int) returns (r: Request)
    requires Inv(s) && k in s.orders && !Stuck(s.orders[k]) && ItemsWork(s.orders[k].items) > 0
    ensures r.ItemUpdate? && r.orderId == k && Apply(s, r).Ok? && Admissible(s, r) && Inv(After(s, r))
    ensures k in After(s, r).orders && !Stuck(After(s, r).orders[k])
    ensures ItemsWork(After(s, r).orders[k].items) == ItemsWork(s.orders[k].items) - 1
  {
    StoredItemsValid(s.orders[k], k);
    ItemsWorkZero(s.orders[k].items);
    r := NextUpdate(s, k);
    InvKept(s, r);
  }

  /** n accepted updates that take n units of work off an order. */
  lemma WorkOff(s: State, k: int, n: nat) returns (rs: seq<Request>)
    requires Inv(s) && k in s.orders && !Stuck(s.orders[k]) && n <= ItemsWork(s.orders[k].items)
    ensures |rs| == n && AllAccepted(s, rs) && AdmissibleRun(s, rs)
    ensures forall i | 0 <= i < n :: rs[i].ItemUpdate? && rs[i].orderId == k
    ensures var s' := Run(s, rs);
            && Inv(s') && k in s'.orders && !Stuck(s'.orders[k])
            && ItemsWork(s'.orders[k].items) == ItemsWork(s.orders[k].items) - n
  {
    if n == 0 {
      rs := [];
    } else {
      var init := WorkOff(s, k, n - 1);
      var s' := Run(s, init);
      var r := OneOff(s', k);
      AcceptedSnoc(s, init, r);
      rs := init + [r];
      assert Run(s, rs) == After(s', r);
    }
  }

  /** An order that is not stuck is delivered by exactly as many accepted item updates as it has
      work left, and one accepted order update. */
  lemma Deliver(s: State, k: int) returns (rs: seq<Request>)
    requires Inv(s) && k in s.orders && !Stuck(s.orders[k])
    ensures |rs| == ItemsWork(s.orders[k].items) + 1 && AllAccepted(s, rs) && AdmissibleRun(s, rs)
    ensures forall i | 0 <= i < |rs| - 1 :: rs[i].ItemUpdate? && rs[i].orderId == k
    ensures rs[|rs| - 1] == OrderUpdate(k, OrderStatus.DELIVERED)
    ensures k !in Run(s, rs).orders
  {
    var init := WorkOff(s, k, ItemsWork(s.orders[k].items));
    var s' := Run(s, init);
    StoredItemsValid(s'.orders[k], k);
    ItemsWorkZero(s'.orders[k].items);
    rs := init + [OrderUpdate(k, OrderStatus.DELIVERED)];
    AcceptedSnoc(s, init, OrderUpdate(k, OrderStatus.DELIVERED));
  }

  /** Which stored orders requests can bring to delivery: exactly those that are not stuck. */
  lemma DeliverableExactly(s: State, k: int)
    requires Inv(s) && k in s.orders
    ensures (exists rs :: AdmissibleRun(s, rs) && k !in Run(s, rs).orders) <==> !Stuck(s.orders[k])
  {
    if Stuck(s.orders[k]) {
      forall rs | AdmissibleRun(s, rs)
        ensures k in Run(s, rs).orders
      {
        StuckForever(s, rs, k);
      }
    } else {
      var rs := Deliver(s, k);
    }
  }

  // ----- the work of one order -----

  /** The accepted updates of items of order k. */
  function UpdatesOf(s: State, rs: seq<Request>, k: int): nat {
    if rs == [] then 0
    else
      var init, r := rs[..|rs| - 1], rs[|rs| - 1];
      UpdatesOf(s, init, k) + if r.ItemUpdate? && r.orderId == k then Done(Run(s, init), r) else 0
  }

  function OrderWork(s: State, k: int): nat {
    if k in s.orders then ItemsWork(s.orders[k].items) else 0
  }

  lemma OrderStepConserves(s: State, r: Request, k: int)
    requires Inv(s) && Admissible(s, r) && k < s.next
    ensures (if r.ItemUpdate? && r.orderId == k then Done(s, r) else 0) + OrderWork(After(s, r), k) == OrderWork(s, k)
  {
    if Apply(s, r).Ok? {
      match r {
        case NewOrder(o) =>
        case ItemUpdate(orderId, itemId, st) =>
          ItemUpdateOutcome(s, r);
          var o := s.orders[orderId];
          var i := FindItem(o.items, itemId).value;
          ItemsWorkUpdate(o.items, i, o.items[i].(status := st));
        case OrderUpdate(orderId, st) =>
          if orderId == k {
            StoredItemsValid(s.orders[k], k);
            ItemsWorkZero(s.orders[k].items);
          }
      }
    }
  }

  /** Conservation of work for one order: whatever the requests, its accepted item updates and the
      work that is left in it, if it is still stored, add up to the work that it had. */
  lemma {:induction false} OrderWorkIsConserved(s: State, rs: seq<Request>, k: int)
    requires Inv(s) && AdmissibleRun(s, rs) && k in s.orders
    ensures Inv(Run(s, rs)) && k < Run(s, rs).next
    ensures UpdatesOf(s, rs, k) + OrderWork(Run(s, rs), k) == ItemsWork(s.orders[k].items)
  {
    if rs != [] {
      var init, r := rs[..|rs| - 1], rs[|rs| - 1];
      OrderWorkIsConserved(s, init, k);
      InvKept(Run(s, init), r);
      OrderStepConserves(Run(s, init), r, k);
    }
  }

  /** Every run that delivers an order makes exactly as many accepted updates of its items as it
      had work. */
  lemma DeliveryTakesAllWork(s: State, rs: seq<Request>, k: int)
    requires Inv(s) && AdmissibleRun(s, rs) && k in s.orders && k !in Run(s, rs).orders
    ensures UpdatesOf(s, rs, k) == ItemsWork(s.orders[k].items)
  {
    OrderWorkIsConserved(s, rs, k);
  }

  /** An order of n items that arrive NEW and with distinct ids: 2n accepted updates of its items and
      one order update deliver it, and no run delivers it with another number of item updates. */
  lemma FreshOrderDelivers(s: State, o: Order) returns (rs: seq<Request>)
    requires Inv(s) && Admissible(s, NewOrder(o))
    requires AllNew(o.items) && forall i, j | 0 <= i < j < |o.items| :: o.items[i].id != o.items[j].id
    ensures var s' := After(s, NewOrder(o));
            && s.next in s'.orders && s.next !in Run(s', rs).orders
            && AllAccepted(s', rs) && AdmissibleRun(s', rs)
    ensures |rs| == 2 * |o.items| + 1 && rs[|rs| - 1] == OrderUpdate(s.next, OrderStatus.DELIVERED)
    ensures forall i | 0 <= i < |rs| - 1 :: rs[i].ItemUpdate? && rs[i].orderId == s.next
    ensures var s' := After(s, NewOrder(o));
            forall any | AdmissibleRun(s', any) && s.next !in Run(s', any).orders ::
                UpdatesOf(s', any, s.next) == 2 * |o.items|
  {
    var s' := After(s, NewOrder(o));
    InvKept(s, NewOrder(o));
    FreshOrderWork(o, s.next);
    rs := Deliver(s', s.next);
    forall any | AdmissibleRun(s', any) && s.next !in Run(s', any).orders
      ensures UpdatesOf(s', any, s.next) == 2 * |o.items|
    {
      DeliveryTakesAllWork(s', any, s.next);
    }
  }

  lemma FreshOrderWork(o: Order, k: int)
    requires o.items != [] && AllNew(o.items) && forall i, j | 0 <= i < j < |o.items| :: o.items[i].id != o.items[j].id
    ensures !Stuck(Assign(o, k)) && ItemsWork(Assign(o, k).items) == 2 * |o.items|
  {
    var a := Assign(o, k);
    assert forall i | 0 <= i < |a.items| :: a.items[i] == o.items[i].(orderId := k);
    assert First(a.items, 0);
    ItemsWorkNew(a.items);
  }

  /** Two items of one id, both NEW, make an order that is accepted and that no requests deliver. */
  lemma DuplicateIdIsStuck(s: State, item: Item)
    requires Inv(s) && s.next < INT_MAX && WireItem(item) && item.status == ItemStatus.NEW
    ensures var o := Order(1, OrderStatus.NEW, [item, item]);
            var s' := After(s, NewOrder(o));
            && Admissible(s, NewOrder(o)) && s.next in s'.orders
            && forall rs | AdmissibleRun(s', rs) :: s.next in Run(s', rs).orders
  {
    var o := Order(1, OrderStatus.NEW, [item, item]);
    var s' := After(s, NewOrder(o));
    InvKept(s, NewOrder(o));
    var a := s'.orders[s.next];
    assert a.items[1].id == a.items[0].id && !First(a.items, 1);
    forall rs | AdmissibleRun(s', rs)
      ensures s.next in Run(s', rs).orders
    {
      StuckForever(s', rs, s.next);
    }
  }
}
