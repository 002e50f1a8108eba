/** How long an order can get under requests, and which new orders fit a frame at all times. */
module Growth {
  import opened Model
  import opened Text
  import opened WireProofs
  import opened Framing
  import opened ServerSpec
  import opened ServerProofs
  import opened Delivery
  import opened MachineLinks
  import opened Capacity

  // ----- the longest that an order can get -----

  /** The items that requests can move from NEW to IN_PROGRESS, the longest status name. */
  function Startable(items: seq<Item>): seq<bool> {
    seq(|items|, i requires 0 <= i < |items| => First(items, i) && items[i].status == ItemStatus.NEW)
  }

  function Count(marks: seq<bool>): nat {
    if marks == [] then 0 else (if marks[0] then 1 else 0) + Count(marks[1..])
  }

  function Started(items: seq<Item>, marks: seq<bool>): seq<Item>
    requires |marks| == |items|
  {
    seq(|items|,
        i requires 0 <= i < |items| => if marks[i] then items[i].(status := ItemStatus.IN_PROGRESS) else items[i])
  }

  /** The number of statuses of the order that can still become IN_PROGRESS. */
  function Growing(o: Order): nat {
    var c := Count(Startable(o.items));
    if c > 0 && o.status == OrderStatus.NEW then c + 1 else c
  }

  /** The order with all of them IN_PROGRESS. */
  function Fullest(o: Order): Order {
    Order(o.id,
          if Growing(o) > 0 && o.status == OrderStatus.NEW then OrderStatus.IN_PROGRESS else o.status,
          Started(o.items, Startable(o.items)))
  }

  lemma StartedPiece(i: Item)
    requires i.status == ItemStatus.NEW
    ensures PieceLength(i.(status := ItemStatus.IN_PROGRESS)) == PieceLength(i) + 8
  {
  }

  /** The sum of f after a change that adds eight to each marked element. */
  lemma {:induction false} SumMarked<T>(f: T -> nat, a: seq<T>, b: seq<T>, marks: seq<bool>)
    requires |a| == |b| == |marks|
    requires forall i | 0 <= i < |a| :: f(b[i]) == f(a[i]) + if marks[i] then 8 else 0
    ensures Sum(f, b) == Sum(f, a) + 8 * Count(marks)
  {
    if a != [] {
      assert f(b[0]) == f(a[0]) + if marks[0] then 8 else 0;
      SumMarked(f, a[1..], b[1..], marks[1..]);
    }
  }

  lemma StartedLength(items: seq<Item>, marks: seq<bool>)
    requires |marks| == |items| && forall i | 0 <= i < |items| && marks[i] :: items[i].status == ItemStatus.NEW
    ensures ItemsLength(Started(items, marks)) == ItemsLength(items) + 8 * Count(marks)
  {
    forall i | 0 <= i < |items|
      ensures PieceLength(Started(items, marks)[i]) == PieceLength(items[i]) + if marks[i] then 8 else 0
    {
      if marks[i] {
        StartedPiece(items[i]);
      }
    }
    SumMarked(PieceLength, items, Started(items, marks), marks);
  }

  /** The length of the order with eight bytes more for each status that can become IN_PROGRESS. */
  function Longest(o: Order): nat {
    OrderLength(o) + 8 * Growing(o)
  }

  /** An order can grow by exactly that much. */
  lemma FullestLength(o: Order)
    ensures OrderLength(Fullest(o)) == Longest(o)
  {
    StartedLength(o.items, Startable(o.items));
  }

  /** The order fits a DISP_ORDER frame also at its longest. */
  predicate Roomy(o: Order) {
    11 + Longest(o) <= MAX_FRAMED - 1
  }

  // ----- in terms of the text that brings the order -----

  lemma AssignedIsStartable(o: Order, k: int)
    ensures Startable(Assign(o, k).items) == Startable(o.items)
  {
    var a, b := o.items, Assign(o, k).items;
    forall i | 0 <= i < |a|
      ensures First(b, i) <==> First(a, i)
    {
      assert forall j | 0 <= j < |a| :: b[j] == a[j].(orderId := k);
      if First(b, i) {
        assert forall j | 0 <= j < i :: a[j].id == b[j].id;
      }
    }
    assert forall i | 0 <= i < |a| :: b[i].status == a[i].status;
  }

  /** The statuses that can grow once the order is stored as NEW. */
  function GrowingNew(o: Order): nat {
    var c := Count(Startable(o.items));
    if c > 0 then c + 1 else c
  }

  /** Which orders are roomy under an assigned id. */
  lemma RoomyExactly(o: Order, k: nat)
    requires o.items != []
    ensures Roomy(Assign(o, k)) <==>
            |TextOf(OrderMessage(ORDER_NEW, o))| + 4 + (|o.items| + 1) * |Digits(k)| + 8 * GrowingNew(o)
            <= 9998 + OverwrittenLength(o)
  {
    GrowsExactly(o, k);
    RoomyLength(o, k);
  }

  lemma RoomyLength(o: Order, k: nat)
    requires o.items != []
    ensures Roomy(Assign(o, k)) <==> |TextOf(OrderMessage(DISP_ORDER, Assign(o, k)))| + 8 * GrowingNew(o) <= 9998
  {
    AssignedGrowing(o, k);
    TextLength(DISP_ORDER, Assign(o, k));
  }

  lemma AssignedGrowing(o: Order, k: int)
    ensures Growing(Assign(o, k)) == GrowingNew(o)
  {
    AssignedIsStartable(o, k);
  }

  /** A new order that is roomy under any id. */
  ghost predicate SmallOrder(o: Order) {
    forall k: nat | FIRST_ID <= k <= INT_MAX :: Roomy(Assign(o, k))
  }

  lemma TimesMonotone(n: nat, d: nat, e: nat)
    requires d <= e
    ensures n * d <= n * e
  {
  }

  /** Which orders are roomy under any id: exactly those with this length of text. */
  lemma SmallExactly(o: Order)
    requires o.items != []
    ensures SmallOrder(o) <==>
            |TextOf(OrderMessage(ORDER_NEW, o))| + 4 + (|o.items| + 1) * 10 + 8 * GrowingNew(o) <= 9998
                + OverwrittenLength(o)
  {
    IdDigits(INT_MAX);
    RoomyExactly(o, INT_MAX);
    if Roomy(Assign(o, INT_MAX)) {
      forall k: nat | FIRST_ID <= k <= INT_MAX
        ensures Roomy(Assign(o, k))
      {
        IdDigits(k);
        TimesMonotone(|o.items| + 1, |Digits(k)|, 10);
        RoomyExactly(o, k);
      }
    }
  }

  lemma {:induction false} CountAtMost(marks: seq<bool>)
    ensures Count(marks) <= |marks|
    ensures (forall i | 0 <= i < |marks| :: marks[i]) ==> Count(marks) == |marks|
  {
    if marks != [] {
      CountAtMost(marks[1..]);
    }
  }

  /** A bound that is enough for any order that the decoder builds, any id and any requests. */
  lemma ShortTextsAreSmall(o: Order)
    requires WireOrder(o) && |TextOf(OrderMessage(ORDER_NEW, o))| <= 9997 - 17 * (|o.items| + 1)
    ensures SmallOrder(o)
  {
    CountAtMost(Startable(o.items));
    OverwrittenAtLeast(o);
    SmallExactly(o);
  }

  predicate DistinctIds(items: seq<Item>) {
    forall i, j | 0 <= i < j < |items| :: items[i].id != items[j].id
  }

  lemma AllStartable(o: Order)
    requires Canonical(o) && o.items != [] && DistinctIds(o.items)
    ensures GrowingNew(o) == |o.items| + 1
  {
    assert forall i | 0 <= i < |o.items| :: Startable(o.items)[i];
    CountAtMost(Startable(o.items));
  }

  /** For orders as the updater program sends them, with distinct item ids, that bound is exact. */
  lemma CanonicalSmallExactly(o: Order)
    requires Canonical(o) && o.items != [] && DistinctIds(o.items)
    ensures SmallOrder(o) <==> |TextOf(OrderMessage(ORDER_NEW, o))| <= 9997 - 17 * (|o.items| + 1)
  {
    SmallExactly(o);
    CanonicalOverwritten(o);
    AllStartable(o);
  }

  lemma CanonicalRoomyExactly(o: Order, k: nat)
    requires Canonical(o) && o.items != [] && DistinctIds(o.items)
    ensures Roomy(Assign(o, k)) <==>
            |TextOf(OrderMessage(ORDER_NEW, o))| <= 9997 - (|o.items| + 1) * (|Digits(k)| - 1) - 8 * (|o.items| + 1)
  {
    RoomyLength(o, k);
    GrowsCanonically(o, k);
    AllStartable(o);
  }

  // ----- under requests -----

  lemma DonePiece(i: Item)
    requires i.status == ItemStatus.IN_PROGRESS
    ensures PieceLength(i.(status := ItemStatus.DONE)) <= PieceLength(i)
  {
  }

  lemma {:induction false} CountPositive(marks: seq<bool>)
    ensures Count(marks) > 0 <==> exists i :: 0 <= i < |marks| && marks[i]
  {
    if marks != [] {
      CountPositive(marks[1..]);
      if i :| 0 <= i < |marks| && marks[i] {
        assert i == 0 || marks[1..][i - 1];
      }
      if i :| 0 <= i < |marks| - 1 && marks[1..][i] {
        assert marks[i + 1];
      }
    }
  }

  lemma {:induction false} CountUnmark(marks: seq<bool>, i: nat)
    requires i < |marks| && marks[i]
    ensures Count(marks[i := false]) == Count(marks) - 1
  {
    if i == 0 {
      assert marks[0 := false][1..] == marks[1..];
    } else {
      CountUnmark(marks[1..], i - 1);
      assert marks[i := false][1..] == marks[1..][i - 1 := false];
    }
  }

  /** An accepted item update leaves at most its own item no longer startable. */
  lemma UpdatedStartable(o: Order, i: nat, st: ItemStatus)
    requires i < |o.items| && First(o.items, i) && Forward(o.items[i].status, st)
    ensures Startable(Updated(o, i, st).items) == Startable(o.items)[i := false]
    ensures Startable(o.items)[i] <==> st == ItemStatus.IN_PROGRESS
  {
    var o' := Updated(o, i, st);
    forall j: nat | j < |o.items|
      ensures First(o'.items, j) <==> First(o.items, j)
    {
      FirstKept(o, i, st, j);
    }
  }

  /** Starting an item leaves the longest form as it is. */
  lemma StartKeepsFullest(o: Order, k: int, i: nat)
    requires Stored(o, k) && i < |o.items| && Startable(o.items)[i]
    ensures var o' := Updated(o, i, ItemStatus.IN_PROGRESS);
            Fullest(o') == Fullest(o) && Count(Startable(o'.items)) == Count(Startable(o.items)) - 1
  {
    var o' := Updated(o, i, ItemStatus.IN_PROGRESS);
    UpdatedStartable(o, i, ItemStatus.IN_PROGRESS);
    CountUnmark(Startable(o.items), i);
    assert Fullest(o').items == Fullest(o).items;
  }

  lemma StartKeepsLongest(o: Order, k: int, i: nat)
    requires Stored(o, k) && i < |o.items| && Startable(o.items)[i]
    ensures Longest(Updated(o, i, ItemStatus.IN_PROGRESS)) == Longest(o)
  {
    var o' := Updated(o, i, ItemStatus.IN_PROGRESS);
    StartKeepsFullest(o, k, i);
    FullestLength(o);
    FullestLength(o');
  }

  /** Finishing an item makes the longest form no longer. */
  lemma FinishShortens(o: Order, k: int, i: nat)
    requires Stored(o, k) && i < |o.items| && First(o.items, i) && o.items[i].status == ItemStatus.IN_PROGRESS
    ensures Longest(Updated(o, i, ItemStatus.DONE)) <= Longest(o)
  {
    FinishedGrowing(o, i);
    FinishedLength(o, i);
  }

  lemma FinishedGrowing(o: Order, i: nat)
    requires i < |o.items| && First(o.items, i) && o.items[i].status == ItemStatus.IN_PROGRESS
    ensures Growing(Updated(o, i, ItemStatus.DONE)) <= Growing(o)
  {
    UpdatedStartable(o, i, ItemStatus.DONE);
    var marks := Startable(o.items);
    assert marks[i := false] == marks;
  }

  /** The text gets no longer by DONE in place of IN_PROGRESS. */
  lemma FinishedLength(o: Order, i: nat)
    requires i < |o.items| && o.items[i].status == ItemStatus.IN_PROGRESS
    ensures OrderLength(Updated(o, i, ItemStatus.DONE)) <= OrderLength(o)
  {
    DonePiece(o.items[i]);
    SumUpdate(PieceLength, o.items, i, o.items[i].(status := ItemStatus.DONE));
  }

  lemma UpdateShortens(o: Order, k: int, i: nat, st: ItemStatus)
    requires Stored(o, k) && i < |o.items| && First(o.items, i) && Forward(o.items[i].status, st)
    ensures Longest(Updated(o, i, st)) <= Longest(o)
  {
    if st == ItemStatus.IN_PROGRESS {
      StartKeepsLongest(o, k, i);
    } else {
      FinishShortens(o, k, i);
    }
  }

  /** A request leaves a stored order as it is, unless it is an accepted item update of that order. */
  lemma OthersUntouched(s: State, r: Request, k: int)
    requires Inv(s) && Admissible(s, r) && k in s.orders && k in After(s, r).orders
    ensures (r.ItemUpdate? && r.orderId == k && Apply(s, r).Ok?) || After(s, r).orders[k] == s.orders[k]
  {
  }

  lemma RequestShortens(s: State, r: Request, k: int)
    requires Inv(s) && Admissible(s, r) && k in s.orders && k in After(s, r).orders
    ensures Longest(After(s, r).orders[k]) <= Longest(s.orders[k])
  {
    OthersUntouched(s, r, k);
    if r.ItemUpdate? && r.orderId == k && Apply(s, r).Ok? {
      ItemUpdateShortens(s, r);
    }
  }

  lemma ItemUpdateShortens(s: State, r: Request)
    requires Inv(s) && r.ItemUpdate? && Apply(s, r).Ok?
    ensures r.orderId in s.orders && r.orderId in After(s, r).orders
    ensures Longest(After(s, r).orders[r.orderId]) <= Longest(s.orders[r.orderId])
  {
    ItemUpdateOutcome(s, r);
    var o := s.orders[r.orderId];
    FoundIsFirst(o.items, r.itemId);
    UpdateShortens(o, r.orderId, FindItem(o.items, r.itemId).value, r.itemStatus);
  }

  /** Whatever the requests, a stored order does not outgrow its longest form. */
  lemma {:induction false} RunShortens(s: State, rs: seq<Request>, k: int)
    requires Inv(s) && AdmissibleRun(s, rs) && k in s.orders
    ensures Inv(Run(s, rs)) && k < Run(s, rs).next
    ensures k in Run(s, rs).orders ==>
              OrderLength(Run(s, rs).orders[k]) <= Longest(Run(s, rs).orders[k]) <= Longest(s.orders[k])
  {
    if rs != [] {
      var init, r := rs[..|rs| - 1], rs[|rs| - 1];
      RunShortens(s, init, k);
      InvKept(Run(s, init), r);
      if k in Run(s, rs).orders {
        StaysStored(Run(s, init), r, k);
        RequestShortens(Run(s, init), r, k);
      }
    }
  }

  lemma StaysStored(s: State, r: Request, k: int)
    requires k in After(s, r).orders && k < s.next
    ensures k in s.orders
  {
  }

  /** An accepted request that starts one more item. */
  lemma NextStart(s: State, k: int) returns (r: Request)
    requires Inv(s) && k in s.orders && Count(Startable(s.orders[k].items)) > 0
    ensures r.ItemUpdate? && r.orderId == k && r.itemStatus == ItemStatus.IN_PROGRESS && Apply(s, r).Ok?
    ensures k in After(s, r).orders && Fullest(After(s, r).orders[k]) == Fullest(s.orders[k])
    ensures Count(Startable(After(s, r).orders[k].items)) == Count(Startable(s.orders[k].items)) - 1
  {
    var o := s.orders[k];
    CountPositive(Startable(o.items));
    var i: nat :| i < |o.items| && Startable(o.items)[i];
    r := ItemUpdate(k, o.items[i].id, ItemStatus.IN_PROGRESS);
    FirstIsFound(o.items, i);
    ItemUpdateOutcome(s, r);
    StartKeepsFullest(o, k, i);
  }

  lemma StartSome(s: State, k: int, n: nat) returns (rs: seq<Request>)
    requires Inv(s) && k in s.orders && n <= Count(Startable(s.orders[k].items))
    ensures |rs| == n && AllAccepted(s, rs) && AdmissibleRun(s, rs)
    ensures forall i | 0 <= i < n :: rs[i].ItemUpdate? && rs[i].orderId == k
    ensures var s' := Run(s, rs);
            && Inv(s') && k in s'.orders && Fullest(s'.orders[k]) == Fullest(s.orders[k])
            && Count(Startable(s'.orders[k].items)) == Count(Startable(s.orders[k].items)) - n
  {
    if n == 0 {
      rs := [];
    } else {
      var init := StartSome(s, k, n - 1);
      var s' := Run(s, init);
      var r := NextStart(s', k);
      InvKept(s', r);
      AcceptedSnoc(s, init, r);
      rs := init + [r];
    }
  }

  lemma NothingStartable(o: Order)
    requires Count(Startable(o.items)) == 0
    ensures Fullest(o) == o
  {
    CountPositive(Startable(o.items));
    assert Fullest(o).items == o.items;
  }

  /** Accepted requests, one for each item that can be started, bring an order to its longest form. */
  lemma StartAll(s: State, k: int) returns (rs: seq<Request>)
    requires Inv(s) && k in s.orders
    ensures AllAccepted(s, rs) && AdmissibleRun(s, rs) && |rs| == Count(Startable(s.orders[k].items))
    ensures forall i | 0 <= i < |rs| :: rs[i].ItemUpdate? && rs[i].orderId == k
    ensures k in Run(s, rs).orders && Run(s, rs).orders[k] == Fullest(s.orders[k])
  {
    rs := StartSome(s, k, Count(Startable(s.orders[k].items)));
    NothingStartable(Run(s, rs).orders[k]);
  }

  /** The stored order can be shown in a snapshot. */
  predicate Showable(o: Order) {
    Fits(OrderMessage(DISP_ORDER, o))
  }

  lemma StoredIsShowable(s: State, k: int)
    requires Inv(s) && k in s.orders
    ensures Showable(s.orders[k]) <==> 11 + OrderLength(s.orders[k]) <= 9998
  {
    OrderFits(s.orders[k]);
  }

  /** Which new orders can be shown at all times, whatever requests come: exactly the roomy ones. */
  lemma AlwaysFitsExactly(s: State, o: Order)
    requires Inv(s) && Admissible(s, NewOrder(o))
    ensures var s' := After(s, NewOrder(o));
            Roomy(Assign(o, s.next)) <==>
            forall rs | AdmissibleRun(s', rs) && s.next in Run(s', rs).orders :: Showable(Run(s', rs).orders[s.next])
  {
    var s', k := After(s, NewOrder(o)), s.next;
    InvKept(s, NewOrder(o));
    if Roomy(Assign(o, k)) {
      forall rs | AdmissibleRun(s', rs) && k in Run(s', rs).orders
        ensures Showable(Run(s', rs).orders[k])
      {
        RunShortens(s', rs, k);
        StoredIsShowable(Run(s', rs), k);
      }
    } else {
      var rs := StartAll(s', k);
      RunShortens(s', rs, k);
      FullestLength(s'.orders[k]);
      StoredIsShowable(Run(s', rs), k);
    }
  }

  /** Room for the id alone is not enough: this order fits a frame under every id when it is new, and
      one accepted update brings it past the frame; a display that joins then cannot be shown it. */
  lemma OrdersOutgrowFrames(s: State)
    requires Inv(s) && s.next < INT_MAX
    ensures var o := OneItem(9953);
            var rs := [NewOrder(o), ItemUpdate(s.next, 1, ItemStatus.IN_PROGRESS)];
            && Canonical(o) && (forall k: nat | FIRST_ID <= k <= INT_MAX :: Showable(Assign(o, k)))
            && AllAccepted(s, rs) && AdmissibleRun(s, rs)
            && s.next in Run(s, rs).orders && !Showable(Run(s, rs).orders[s.next])
  {
    var o, k := OneItem(9953), s.next;
    var first, second := NewOrder(o), ItemUpdate(k, 1, ItemStatus.IN_PROGRESS);
    OneItemLength(9953);
    forall k: nat | FIRST_ID <= k <= INT_MAX
      ensures Showable(Assign(o, k))
    {
      SmallOrdersFit(o, k);
    }
    RunOfTwo(s, first, second);
    InvKept(s, first);
    var s' := After(s, first);
    OneItemStarts(s', k, Fill(9953));
    OneItemOutgrows(o, k, After(s', second).orders[k]);
  }

  lemma RunOfTwo(s: State, a: Request, b: Request)
    ensures Run(s, [a, b]) == After(After(s, a), b)
    ensures Apply(s, a).Ok? && Apply(After(s, a), b).Ok? ==> AllAccepted(s, [a, b])
    ensures Admissible(s, a) && Admissible(After(s, a), b) ==> AdmissibleRun(s, [a, b])
  {
    assert [a, b][..1] == [a] && [a][..0] == [];
    assert Run(s, [a]) == After(s, a);
  }

  lemma OneItemStarts(s: State, k: int, desc: string)
    requires k in s.orders && s.orders[k] == Order(k, OrderStatus.NEW, [Item(k, 1, ItemStatus.NEW, desc, 1)])
    ensures var r := ItemUpdate(k, 1, ItemStatus.IN_PROGRESS);
            && Apply(s, r).Ok? && k in After(s, r).orders
            && After(s, r).orders[k] == Order(k, OrderStatus.IN_PROGRESS, [Item(k, 1, ItemStatus.IN_PROGRESS, desc, 1)])
  {
    ItemUpdateOutcome(s, ItemUpdate(k, 1, ItemStatus.IN_PROGRESS));
  }

  lemma OneItemOutgrows(o: Order, k: nat, o': Order)
    requires o == OneItem(9953) && FIRST_ID <= k <= INT_MAX
    requires o' == Order(k, OrderStatus.IN_PROGRESS, [Item(k, 1, ItemStatus.IN_PROGRESS, Fill(9953), 1)])
    ensures !Showable(o')
  {
    DigitsExactly(k, 3);
    TextLength(DISP_ORDER, o');
    assert o'.items[1..] == [];
  }
}
