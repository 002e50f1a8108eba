/** How long the text of an order gets, and which orders always fit a frame. */
module Capacity {
  import opened Wrappers
  import opened Model
  import opened Text
  import opened Wire
  import opened WireProofs
  import opened ServerSpec
  import opened ServerProofs
  import opened MachineLinks

  // ----- sums -----

  function Sum<T>(f: T -> nat, xs: seq<T>): nat {
    if xs == [] then 0 else f(xs[0]) + Sum(f, xs[1..])
  }

  /** The sum of f after a change of each element that takes g of it away and adds d. */
  lemma {:induction false} SumShift<T>(f: T -> nat, g: T -> nat, a: seq<T>, b: seq<T>, d: nat)
    requires |a| == |b| && forall i | 0 <= i < |a| :: f(b[i]) + g(a[i]) == f(a[i]) + d
    ensures Sum(f, b) + Sum(g, a) == Sum(f, a) + |a| * d
  {
    if a != [] {
      assert f(b[0]) + g(a[0]) == f(a[0]) + d;
      SumShift(f, g, a[1..], b[1..], d);
      OneMore(|a| - 1, d);
    }
  }

  lemma OneMore(n: nat, d: nat)
    ensures (n + 1) * d == n * d + d
  {
  }

  /** The sum of f after a change of one element. */
  lemma {:induction false} SumUpdate<T>(f: T -> nat, xs: seq<T>, i: nat, x: T)
    requires i < |xs|
    ensures Sum(f, xs[i := x]) + f(xs[i]) == Sum(f, xs) + f(x)
  {
    if i == 0 {
      assert xs[0 := x][1..] == xs[1..];
    } else {
      SumUpdate(f, xs[1..], i - 1, x);
      assert xs[i := x][1..] == xs[1..][i - 1 := x];
    }
  }

  lemma {:induction false} SumConstant<T>(f: T -> nat, xs: seq<T>)
    requires forall i | 0 <= i < |xs| :: f(xs[i]) == 1
    ensures Sum(f, xs) == |xs|
  {
    if xs != [] {
      SumConstant(f, xs[1..]);
    }
  }

  lemma {:induction false} SumAtLeast<T>(f: T -> nat, xs: seq<T>)
    requires forall i | 0 <= i < |xs| :: f(xs[i]) >= 1
    ensures Sum(f, xs) >= |xs|
  {
    if xs != [] {
      SumAtLeast(f, xs[1..]);
    }
  }

  // ----- lengths -----

  function ItemLength(i: Item): nat {
    |ToString(i.orderId)| + |ToString(i.id)| + |ItemStatusToStr(i.status)| + |i.desc| + |ToString(i.qty)| + 4
  }

  /** An item with the separator that follows it. */
  function PieceLength(i: Item): nat {
    ItemLength(i) + 1
  }

  function ItemsLength(items: seq<Item>): nat {
    Sum(PieceLength, items)
  }

  function OrderLength(o: Order): nat {
    |ToString(o.id)| + |OrderStatusToStr(o.status)| + 1 + ItemsLength(o.items)
  }

  lemma ItemTextLength(i: Item)
    ensures |EncodeItem(i)| == ItemLength(i)
  {
  }

  lemma {:induction false} JoinedLength(items: seq<Item>)
    requires items != []
    ensures |Join(ItemTexts(items), ';')| + 1 == ItemsLength(items)
  {
    var texts := ItemTexts(items);
    ItemTextLength(items[0]);
    assert texts[1..] == ItemTexts(items[1..]);
    if |items| == 1 {
      assert ItemsLength(items[1..]) == 0;
    } else {
      JoinedLength(items[1..]);
    }
  }

  lemma EncodedLength(o: Order)
    requires o.items != []
    ensures EncodeOrder(Some(o)).Ok? && |EncodeOrder(Some(o)).value| == OrderLength(o)
  {
    JoinedLength(o.items);
  }

  lemma TextLength(kind: MessageType, o: Order)
    requires kind in {ORDER_NEW, DISP_ORDER} && o.items != []
    ensures |TextOf(OrderMessage(kind, o))| == |MessageTypeToStr(kind)| + 1 + OrderLength(o)
  {
    EncodedLength(o);
  }

  // ----- from ORDER_NEW to DISP_ORDER -----

  function OrderIdLength(i: Item): nat {
    |ToString(i.orderId)|
  }

  function OrderIdsLength(items: seq<Item>): nat {
    Sum(OrderIdLength, items)
  }

  /** What process_new_order overwrites: the id, the status, and the order id of each item. */
  function OverwrittenLength(o: Order): nat {
    |ToString(o.id)| + |OrderStatusToStr(o.status)| + OrderIdsLength(o.items)
  }

  lemma RenumberedPiece(i: Item, k: nat)
    ensures PieceLength(i.(orderId := k)) + OrderIdLength(i) == PieceLength(i) + |Digits(k)|
  {
  }

  lemma AssignedLength(o: Order, k: nat)
    ensures OrderLength(Assign(o, k)) + OverwrittenLength(o) == OrderLength(o) + 3 + (|o.items| + 1) * |Digits(k)|
  {
    var a, b, d := o.items, Assign(o, k).items, |Digits(k)|;
    forall i | 0 <= i < |a|
      ensures PieceLength(b[i]) + OrderIdLength(a[i]) == PieceLength(a[i]) + d
    {
      RenumberedPiece(a[i], k);
    }
    SumShift(PieceLength, OrderIdLength, a, b, d);
    OneMore(|a|, d);
  }

  /** The growth from the updater's text to the displays' text: one for the message type, the digits
      of the new id in the order and in each item, and the status NEW, in place of what was there. */
  lemma GrowsExactly(o: Order, k: nat)
    requires o.items != []
    ensures |TextOf(OrderMessage(DISP_ORDER, Assign(o, k)))| + OverwrittenLength(o)
            == |TextOf(OrderMessage(ORDER_NEW, o))| + 4 + (|o.items| + 1) * |Digits(k)|
  {
    TextLength(ORDER_NEW, o);
    TextLength(DISP_ORDER, Assign(o, k));
    AssignedLength(o, k);
  }

  /** An order as the updater program sends it: id 1, status NEW, items with order id 1 and status NEW. */
  predicate Canonical(o: Order) {
    && o.id == 1 && o.status == OrderStatus.NEW
    && forall i | 0 <= i < |o.items| :: o.items[i].orderId == 1 && o.items[i].status == ItemStatus.NEW
  }

  lemma CanonicalOverwritten(o: Order)
    requires Canonical(o)
    ensures OverwrittenLength(o) == |o.items| + 4
  {
    assert ToString(1) == "1";
    assert forall i | 0 <= i < |o.items| :: OrderIdLength(o.items[i]) == 1;
    SumConstant(OrderIdLength, o.items);
  }

  lemma GrowsCanonically(o: Order, k: nat)
    requires Canonical(o) && o.items != []
    ensures |TextOf(OrderMessage(DISP_ORDER, Assign(o, k)))|
            == |TextOf(OrderMessage(ORDER_NEW, o))| + 1 + (|o.items| + 1) * (|Digits(k)| - 1)
  {
    GrowsExactly(o, k);
    CanonicalOverwritten(o);
    OneLess(|o.items| + 1, |Digits(k)|);
  }

  lemma OneLess(n: nat, d: nat)
    ensures n * (d - 1) == n * d - n
  {
  }

  lemma OverwrittenAtLeast(o: Order)
    ensures OverwrittenLength(o) >= |o.items| + 4
  {
    SumAtLeast(OrderIdLength, o.items);
  }

  lemma OrderFits(o: Order)
    requires WireOrder(o)
    ensures Fits(OrderMessage(DISP_ORDER, o)) <==> 11 + OrderLength(o) <= 9998
  {
    TextLength(DISP_ORDER, o);
  }

  /** Which new orders can be shown to the displays right after they are created: exactly those
      that leave room for the growth. */
  lemma NewOrderFitsExactly(o: Order, k: nat)
    requires WireOrder(o) && FIRST_ID <= k <= INT_MAX
    ensures Fits(OrderMessage(DISP_ORDER, Assign(o, k)))
            <==> |TextOf(OrderMessage(ORDER_NEW, o))| + 4 + (|o.items| + 1) * |Digits(k)| <= 9998 + OverwrittenLength(o)
  {
    GrowsExactly(o, k);
    AssignStored(o, k);
    OrderFits(Assign(o, k));
    TextLength(DISP_ORDER, Assign(o, k));
  }

  lemma CanonicalFitsExactly(o: Order, k: nat)
    requires Canonical(o) && WireOrder(o) && FIRST_ID <= k <= INT_MAX
    ensures Fits(OrderMessage(DISP_ORDER, Assign(o, k)))
            <==> |TextOf(OrderMessage(ORDER_NEW, o))| <= 9997 - (|o.items| + 1) * (|Digits(k)| - 1)
  {
    NewOrderFitsExactly(o, k);
    CanonicalOverwritten(o);
    OneLess(|o.items| + 1, |Digits(k)|);
  }

  lemma AtMostTen(n: nat, d: nat)
    requires d <= 10
    ensures n * d <= 10 * n
  {
  }

  /** A bound that is enough for any order that the decoder builds, and any id. */
  lemma SmallOrdersFit(o: Order, k: nat)
    requires WireOrder(o) && FIRST_ID <= k <= INT_MAX
    requires |TextOf(OrderMessage(ORDER_NEW, o))| <= 9997 - 9 * (|o.items| + 1)
    ensures Fits(OrderMessage(DISP_ORDER, Assign(o, k)))
  {
    IdDigits(k);
    AtMostTen(|o.items| + 1, |Digits(k)|);
    OverwrittenAtLeast(o);
    NewOrderFitsExactly(o, k);
  }

  function Fill(n: nat): string {
    seq(n, _ => 'x')
  }

  /** A canonical order with one item and a description of n bytes. */
  function OneItem(n: nat): Order {
    Order(1, OrderStatus.NEW, [Item(1, 1, ItemStatus.NEW, Fill(n), 1)])
  }

  lemma OneItemLength(n: nat)
    ensures Canonical(OneItem(n)) && WireOrder(OneItem(n)) && |TextOf(OrderMessage(ORDER_NEW, OneItem(n)))| == n + 26
  {
    var o := OneItem(n);
    TextLength(ORDER_NEW, o);
    assert ToString(1) == "1";
    assert o.items[1..] == [];
    assert o.items[0] in o.items;
  }

  /** Near the limit an order can be received and not be shown: whatever id the server assigns,
      this one fits an ORDER_NEW frame and does not fit a DISP_ORDER frame. */
  lemma NearLimitOrdersDoNotFit(k: nat)
    requires FIRST_ID <= k <= INT_MAX
    ensures Canonical(OneItem(9970)) && WireOrder(OneItem(9970))
    ensures Fits(OrderMessage(ORDER_NEW, OneItem(9970))) && !Fits(OrderMessage(DISP_ORDER, Assign(OneItem(9970), k)))
  {
    OneItemLength(9970);
    CanonicalFitsExactly(OneItem(9970), k);
    DigitsExactly(k, 3);
  }
}
