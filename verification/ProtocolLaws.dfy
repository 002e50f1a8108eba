/** What a connection owes its peer, said of the texts and the stored orders themselves: who gets in, what
    each message of an updater is answered, and when the conversation is over. */
module ProtocolLaws {
  import opened Wrappers
  import opened Model
  import opened Text
  import opened Wire
  import opened WireProofs
  import opened Grammar
  import opened ServerSpec
  import opened ServerLaws
  import opened Protocol

  ghost predicate Says(m: Message, kind: MessageType, text: string) {
    m == Message(kind, ClientMode.INVALID, text, None, -1, OrderStatus.INVALID, -1, ItemStatus.INVALID)
  }

  // ----- logging in -----

  /** The only texts that are read as a LOGIN with credentials. */
  ghost predicate LoginText(raw: string, mode: ClientMode, credentials: string) {
    && credentials != "" && '|' !in credentials
    && (|| (mode == UPDATER && raw == "LOGIN|UPDATER|" + credentials)
        || (mode == DISPLAY && raw == "LOGIN|DISPLAY|" + credentials))
  }

  function LoginFields(mode: ClientMode, credentials: string): seq<string> {
    ["LOGIN", if mode == UPDATER then "UPDATER" else "DISPLAY", credentials]
  }

  lemma LoginFieldsJoin(raw: string, mode: ClientMode, credentials: string)
    requires mode != ClientMode.INVALID && credentials != ""
    ensures LoginText(raw, mode, credentials) <==> Fields(raw, LoginFields(mode, credentials), '|')
  {
    var f := LoginFields(mode, credentials);
    Join3(f[0], f[1], f[2], '|');
    assert "LOGIN" + ['|'] + "UPDATER" + ['|'] == "LOGIN|UPDATER|";
    assert "LOGIN" + ['|'] + "DISPLAY" + ['|'] == "LOGIN|DISPLAY|";
  }

  lemma LoginIsRead(raw: string, m: Message)
    requires m.kind == LOGIN && m.mode != ClientMode.INVALID && m.str != ""
    requires m == LoginMessage(m.mode, m.str)
    ensures Decode(raw) == Ok(m) <==> LoginText(raw, m.mode, m.str)
  {
    DecodeExactly(raw, m);
    var f := LoginFields(m.mode, m.str);
    LoginFieldsJoin(raw, m.mode, m.str);
    assert MessageFields(f, m);
    if g :| Fields(raw, g, '|') && MessageFields(g, m) {
      assert g == f;
    }
  }

  /** Users are let in with the mode that they ask for, other credentials are turned down, and any
      other text is not answered. */
  ghost predicate Greets(users: set<string>, raw: string, g: Greeting) {
    match g
    case Admit(mode) => exists c :: c in users && LoginText(raw, mode, c)
    case Deny(reply) =>
      && (exists mode, c :: c !in users && LoginText(raw, mode, c))
      && Says(reply, ERROR, "Invalid credentials")
    case HangUp => forall mode, c :: !LoginText(raw, mode, c)
  }

  lemma LoginIsUnique(raw: string, mode1: ClientMode, c1: string, mode2: ClientMode, c2: string)
    requires LoginText(raw, mode1, c1) && LoginText(raw, mode2, c2)
    ensures mode1 == mode2 && c1 == c2
  {
    LoginIsRead(raw, LoginMessage(mode1, c1));
    LoginIsRead(raw, LoginMessage(mode2, c2));
  }

  lemma GreetGreets(users: set<string>, raw: string)
    ensures Greets(users, raw, Greet(users, raw))
  {
    if mode, c :| LoginText(raw, mode, c) {
      LoginIsRead(raw, LoginMessage(mode, c));
    } else if Decode(raw).Ok? {
      var m := Decode(raw).value;
      if m.kind == LOGIN && m.mode != ClientMode.INVALID && m.str != "" {
        DecodeImage(raw, m);
        LoginIsRead(raw, m);
      }
    }
  }

  lemma GreetExactly(users: set<string>, raw: string, g: Greeting)
    ensures g == Greet(users, raw) <==> Greets(users, raw, g)
  {
    GreetGreets(users, raw);
    if Greets(users, raw, g) {
      GreetsUniquely(users, raw, g, Greet(users, raw));
    }
  }

  lemma GreetsUniquely(users: set<string>, raw: string, g1: Greeting, g2: Greeting)
    requires Greets(users, raw, g1) && Greets(users, raw, g2)
    ensures g1 == g2
  {
    if mode1, c1 :| LoginText(raw, mode1, c1) {
      forall mode2, c2 | LoginText(raw, mode2, c2)
        ensures mode1 == mode2 && c1 == c2
      {
        LoginIsUnique(raw, mode1, c1, mode2, c2);
      }
    }
  }

  // ----- replies -----

  /** What the peer is told of a request: what became of it, a new order's key, the reason of a refusal. */
  ghost predicate Tells(r: Request, key: int, verdict: Result<()>, reply: Message) {
    match verdict
    case Err(e) => e.SemanticError? && Says(reply, ERROR, e.what)
    case Ok(_) =>
      match r
      case NewOrder(_) => exists id :: DecimalText(id, key) && Says(reply, OK, "Created order id " + id)
      case ItemUpdate(_, _, _) => Says(reply, OK, "successful item update")
      case OrderUpdate(_, _) => Says(reply, OK, "successful order update")
  }

  lemma ReplyExactly(s: State, r: Request, reply: Message)
    ensures reply == ReplyTo(s, r) <==> Tells(r, s.next, Verdict(s, r), reply)
  {
    ToStringExactly(ToString(s.next), s.next);
    forall id | DecimalText(id, s.next)
      ensures id == ToString(s.next)
    {
      ToStringExactly(id, s.next);
    }
  }

  /** The key that the reply to a new order names is the one under which there is now an order, and was
      none before. */
  lemma CreatedKeyIsTold(s: State, o: Order) returns (key: int, id: string)
    requires forall k | k in s.orders :: k < s.next
    ensures After(s, NewOrder(o)).orders.Keys - s.orders.Keys == {key}
    ensures DecimalText(id, key) && Says(ReplyTo(s, NewOrder(o)), OK, "Created order id " + id)
  {
    NewOrderIsStored(s, o);
    ReplyExactly(s, NewOrder(o), ReplyTo(s, NewOrder(o)));
    key := s.next;
    id :| DecimalText(id, key) && Says(ReplyTo(s, NewOrder(o)), OK, "Created order id " + id);
  }

  // ----- turns -----

  ghost predicate Complains(s: State, s': State, reply: Message, text: string) {
    s' == s && Says(reply, ERROR, text)
  }

  /** The request is served as the laws of the server say, and its reply tells what became of it. */
  ghost predicate Called(s: State, r: Request, s': State, reply: Message) {
    exists msgs, verdict :: Lawful(s, r, s', msgs, verdict) && Tells(r, s.next, verdict, reply)
  }

  /** What one message of an updater does to the stored orders and is answered, and whether the
      conversation goes on. */
  ghost predicate Turns(s: State, m: Message, s': State, reply: Message, more: bool) {
    && (more <==> m.kind != QUIT)
    && match m.kind
       case QUIT => s' == s && Says(reply, OK, "bye")
       case ORDER_NEW =>
         if m.order.None? then Complains(s, s', reply, "missing order")
         else Called(s, NewOrder(m.order.value), s', reply)
       case ITEM_UPDATE =>
         if m.orderId < 0 || m.itemId < 0 || m.itemStatus == ItemStatus.INVALID then
           Complains(s, s', reply, "missing item fields")
         else Called(s, ItemUpdate(m.orderId, m.itemId, m.itemStatus), s', reply)
       case ORDER_UPDATE =>
         if m.orderId < 0 || m.orderStatus == OrderStatus.INVALID then
           Complains(s, s', reply, "missing order fields")
         else Called(s, OrderUpdate(m.orderId, m.orderStatus), s', reply)
       case _ => Complains(s, s', reply, "Updater: unexpected message type")
  }

  lemma CalledExactly(s: State, r: Request, s': State, reply: Message)
    ensures Called(s, r, s', reply) <==> s' == After(s, r) && reply == ReplyTo(s, r)
  {
    RequestIsLawful(s, r);
    ReplyExactly(s, r, reply);
    if msgs, verdict :| Lawful(s, r, s', msgs, verdict) && Tells(r, s.next, verdict, reply) {
      ServedExactly(s, r, s', msgs, verdict);
    }
  }

  /** The reactions of an updater's thread are exactly these turns. */
  lemma ReactExactly(s: State, m: Message, s': State, reply: Message, more: bool)
    ensures Turns(s, m, s', reply, more) <==>
            match React(m)
            case Reply(msg, goOn) => s' == s && reply == msg && more == goOn
            case Call(r) => s' == After(s, r) && reply == ReplyTo(s, r) && more
  {
    if React(m).Call? {
      CalledExactly(s, React(m).request, s', reply);
    }
  }
}
