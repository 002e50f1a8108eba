/** Work and lifecycle in the running system: conservation in every reachable state, and where, in
    the middle of a request, an order status is behind its items. */
module MachineWork {
  import opened Wrappers
  import opened Model
  import opened WireProofs
  import opened ServerSpec
  import opened ServerProofs
  import opened Delivery
  import opened Machine
  import opened MachineLog
  import opened MachineRuns

  // ----- work -----

  lemma StatusKeepsWork(s: State, k: int, st: OrderStatus)
    requires k in s.orders && FIRST_ID <= k < s.next
    ensures WorkLeft(SetOrderStatus(s, k, st).state) == WorkLeft(s)
  {
    WorkBelowUpdate(s.orders, k, s.orders[k].(status := st), s.next);
  }

  lemma EraseKeepsWork(s: State, k: int)
    requires k in s.orders && FIRST_ID <= k < s.next && ItemsWork(s.orders[k].items) == 0
    ensures WorkLeft(s.(orders := s.orders - {k})) == WorkLeft(s)
  {
    WorkBelowErase(s.orders, k, s.next);
  }

  lemma DoneHasNoWork(o: Order, k: int)
    requires Stored(o, k) && o.status == OrderStatus.DONE
    ensures ItemsWork(o.items) == 0
  {
    StoredItemsValid(o, k);
    ItemsWorkZero(o.items);
  }

  /** The first change of a request does its work; the others move none. */
  lemma MidWork(server: State, s0: State, r: Request, stage: Stage)
    requires Inv(s0) && Admissible(s0, r) && MidRequest(server, s0, r, stage)
    ensures WorkLeft(server) == WorkLeft(After(s0, r))
  {
    var first := Start(s0, r).value.state;
    if r.ItemUpdate? {
      if Follow(first, r).Some? {
        StatusKeepsWork(first, r.orderId, Follow(first, r).value.msg.orderStatus);
      }
    } else if r.OrderUpdate? {
      DoneHasNoWork(s0.orders[r.orderId], r.orderId);
      EraseKeepsWork(first, r.orderId);
    }
  }

  lemma LinearWork(sh: Shared, progress: Option<(Request, Stage)>)
    requires Linear(sh, progress)
    ensures TotalDone(INITIAL, sh.served) + WorkLeft(sh.server) == TotalBrought(sh.served)
  {
    WorkIsConserved(sh.served);
    if progress.Some? {
      var init := sh.served[..|sh.served| - 1];
      InvOfRun(init);
      MidWork(sh.server, Run(INITIAL, init), progress.value.0, progress.value.1);
    }
  }

  /** Conservation of work in every reachable state, also in the middle of a request: the served
      item updates and the work left in the stored orders make up all the work brought in. */
  lemma WorkIsAccounted(s: Sys)
    requires Reached(s)
    ensures TotalDone(INITIAL, s.shared.served) + WorkLeft(s.shared.server) == TotalBrought(s.shared.served)
  {
    ReachedKeeps(s);
    LinearWork(s.shared, InProgress(s));
  }

  // ----- lifecycle -----

  /** The order that the request in progress works on, where its status is not yet, or no longer,
      the one that its items call for. */
  predicate Lagging(server: State, progress: Option<(Request, Stage)>, k: int) {
    progress.Some? &&
    match progress.value.0
    case NewOrder(_) => false
    case ItemUpdate(orderId, _, _) => k == orderId && progress.value.1 != End && Follow(server, progress.value.0).Some?
    case OrderUpdate(orderId, _) => k == orderId
  }

  lemma BehindItsItems(o: Order, i: nat, st: ItemStatus)
    requires i < |o.items| && Forward(o.items[i].status, st) && o.status == StatusOf(o.items)
    ensures SetItemStatus(o, i, st).status == StatusOf(SetItemStatus(o, i, st).items)
            <==> Updated(o, i, st) == SetItemStatus(o, i, st)
  {
    UpdatedStrong(o, i, st);
  }

  lemma MidLifecycle(server: State, s0: State, r: Request, stage: Stage, k: int)
    requires StrongLifecycle(s0) && StrongLifecycle(After(s0, r)) && MidRequest(server, s0, r, stage) && stage != Begin
    requires k in server.orders
    ensures server.orders[k].status == StatusOf(server.orders[k].items) <==> !Lagging(server, Some((r, stage)), k)
  {
    match r {
      case NewOrder(o) =>
      case ItemUpdate(orderId, itemId, st) =>
        ItemUpdateOutcome(s0, r);
        if k == orderId && stage == Between {
          var o := s0.orders[k];
          BehindItsItems(o, FindItem(o.items, itemId).value, st);
        }
      case OrderUpdate(orderId, st) =>
    }
  }

  lemma NewPrefix(rs: seq<Request>, n: nat)
    requires n <= |rs| && forall i | 0 <= i < |rs| :: ArrivesNew(rs[i])
    ensures forall i | 0 <= i < n :: ArrivesNew(rs[..n][i])
  {
    forall i | 0 <= i < n
      ensures ArrivesNew(rs[..n][i])
    {
      assert ArrivesNew(rs[i]);
    }
  }

  lemma LinearLifecycle(sh: Shared, progress: Option<(Request, Stage)>, k: int)
    requires Linear(sh, progress) && (progress.Some? ==> progress.value.1 != Begin)
    requires (forall i | 0 <= i < |sh.served| :: ArrivesNew(sh.served[i])) && k in sh.server.orders
    ensures sh.server.orders[k].status == StatusOf(sh.server.orders[k].items) <==> !Lagging(sh.server, progress, k)
  {
    StrongLifecycleOfRun(sh.served);
    if progress.Some? {
      var n := |sh.served| - 1;
      NewPrefix(sh.served, n);
      StrongLifecycleOfRun(sh.served[..n]);
      MidLifecycle(sh.server, Run(INITIAL, sh.served[..n]), progress.value.0, progress.value.1, k);
    }
  }

  /** If items arrive NEW, the status of a stored order is a function of its items in every reachable
      state, except exactly for the order of a request in the middle of its critical section: after
      an item change that calls for a transition, and while a delivered order is on its way out. */
  lemma LifecycleInEveryState(s: Sys, k: int)
    requires Reached(s) && k in s.shared.server.orders
    requires forall i | 0 <= i < |s.shared.served| :: ArrivesNew(s.shared.served[i])
    ensures var o := s.shared.server.orders[k];
            o.status == StatusOf(o.items) <==> !Lagging(s.shared.server, InProgress(s), k)
    ensures s.shared.lock.None? ==> !Lagging(s.shared.server, InProgress(s), k)
  {
    ReachedKeeps(s);
    RecordedIsLinear(s);
    LinearLifecycle(s.shared, InProgress(s), k);
  }

  lemma RecordedIsLinear(s: Sys)
    requires Recorded(s)
    ensures Linear(s.shared, InProgress(s)) && (InProgress(s).Some? ==> InProgress(s).value.1 != Begin)
    ensures s.shared.lock.None? ==> InProgress(s).None?
  {
  }

  // ----- identity -----

  /** The order carries its key, in itself and in its items, and can be sent. */
  predicate Identified(o: Order, k: int, next: int) {
    && FIRST_ID <= k < next && o.id == k && WireOrder(o)
    && forall i | 0 <= i < |o.items| :: o.items[i].orderId == k
  }

  lemma StoredIsIdentified(o: Order, k: int, next: int)
    requires Stored(o, k) && FIRST_ID <= k < next
    ensures Identified(o, k, next)
  {
  }

  lemma StatusKeepsIdentity(o: Order, k: int, next: int, st: OrderStatus)
    requires Identified(o, k, next) && st != OrderStatus.INVALID
    ensures Identified(o.(status := st), k, next)
  {
  }

  lemma ItemKeepsIdentity(o: Order, k: int, next: int, i: nat, st: ItemStatus)
    requires Identified(o, k, next) && i < |o.items| && st != ItemStatus.INVALID
    ensures Identified(SetItemStatus(o, i, st), k, next)
  {
    SetItemKeeps(o, i, st);
  }

  /** The first change of a request keeps the identities. */
  lemma StartKeepsIdentity(s: State, r: Request, k: int)
    requires Inv(s) && Admissible(s, r) && Start(s, r).Ok? && k in Start(s, r).value.state.orders
    ensures Identified(Start(s, r).value.state.orders[k], k, Start(s, r).value.state.next)
  {
    var next := Start(s, r).value.state.next;
    if k in s.orders {
      StoredIsIdentified(s.orders[k], k, next);
    }
    match r {
      case NewOrder(o) =>
        AssignStored(o, s.next);
        StoredIsIdentified(Assign(o, s.next), s.next, next);
      case ItemUpdate(orderId, itemId, st) =>
        var o := s.orders[orderId];
        if k == orderId {
          ItemKeepsIdentity(o, k, next, FindItem(o.items, itemId).value, st);
        }
      case OrderUpdate(orderId, st) =>
        if k == orderId {
          StatusKeepsIdentity(s.orders[k], k, next, OrderStatus.DELIVERED);
        }
    }
  }

  lemma MidIdentity(server: State, s0: State, r: Request, stage: Stage, k: int)
    requires Inv(s0) && Admissible(s0, r) && MidRequest(server, s0, r, stage) && k in server.orders
    ensures Identified(server.orders[k], k, server.next)
  {
    var first := Start(s0, r).value.state;
    StartKeepsIdentity(s0, r, k);
    if stage == End && Follow(first, r).Some? && k == r.orderId {
      StatusKeepsIdentity(first.orders[k], k, first.next, Follow(first, r).value.msg.orderStatus);
    }
  }

  lemma LinearIdentity(sh: Shared, progress: Option<(Request, Stage)>, k: int)
    requires Linear(sh, progress) && k in sh.server.orders
    ensures Identified(sh.server.orders[k], k, sh.server.next)
  {
    if progress.None? {
      InvOfRun(sh.served);
      StoredIsIdentified(sh.server.orders[k], k, sh.server.next);
    } else {
      var init := sh.served[..|sh.served| - 1];
      InvOfRun(init);
      MidIdentity(sh.server, Run(INITIAL, init), progress.value.0, progress.value.1, k);
    }
  }

  /** Identity in every reachable state, also in the middle of a request: every stored order carries its
      key, in itself and in each of its items; the key was assigned and lies below the id counter;
      and the order can be sent. */
  lemma IdentityInEveryState(s: Sys, k: int)
    requires Reached(s) && k in s.shared.server.orders
    ensures Identified(s.shared.server.orders[k], k, s.shared.server.next)
  {
    ReachedKeeps(s);
    LinearIdentity(s.shared, InProgress(s), k);
  }
}
