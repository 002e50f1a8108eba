/** What a connection asks and is answered (src/client.cpp:56-151), on values. */
module Protocol {
  import opened Wrappers
  import opened Model
  import opened Text
  import opened Wire
  import opened ServerSpec

  const LOGIN_OK := StrMessage(OK, "Login successful")
  const HEARTBEAT := PlainMessage(DISP_HEARTBEAT)

  /** Client::chat on the first frame. */
  datatype Greeting = HangUp | Deny(reply: Message) | Admit(mode: ClientMode)

  function Greet(users: set<string>, raw: string): Greeting {
    match Decode(raw)
    case Err(_) => HangUp
    case Ok(m) =>
      if m.kind != LOGIN || !m.HasMode() || !m.HasStr() then HangUp
      else if m.str !in users then Deny(StrMessage(ERROR, "Invalid credentials"))
      else Admit(m.mode)
  }

  /** Client::updater_loop on one decoded message: a reply at once, or a call of a server method. */
  datatype Reaction = Reply(msg: Message, more: bool) | Call(request: Request)

  function React(m: Message): Reaction {
    match m.kind
    case QUIT => Reply(StrMessage(OK, "bye"), false)
    case ORDER_NEW =>
      if !m.HasOrder() then Reply(StrMessage(ERROR, "missing order"), true)
      else Call(NewOrder(m.order.value))
    case ITEM_UPDATE =>
      if !m.HasOrderId() || !m.HasItemId() || !m.HasItemStatus() then
        Reply(StrMessage(ERROR, "missing item fields"), true)
      else Call(ItemUpdate(m.orderId, m.itemId, m.itemStatus))
    case ORDER_UPDATE =>
      if !m.HasOrderId() || !m.HasOrderStatus() then Reply(StrMessage(ERROR, "missing order fields"), true)
      else Call(OrderUpdate(m.orderId, m.orderStatus))
    case _ => Reply(StrMessage(ERROR, "Updater: unexpected message type"), true)
  }

  function OkReply(r: Request, next: int): Message {
    match r
    case NewOrder(_) => StrMessage(OK, "Created order id " + ToString(next - 1))
    case ItemUpdate(_, _, _) => StrMessage(OK, "successful item update")
    case OrderUpdate(_, _) => StrMessage(OK, "successful order update")
  }

  function ErrorReply(e: Error): Message {
    StrMessage(ERROR, if e.SemanticError? then e.what else "")
  }

  /** The reply that a request deserves in state s: OK, with the id assigned, exactly if the server
      accepts it there. */
  function ReplyTo(s: State, r: Request): Message {
    match Apply(s, r)
    case Ok(outcome) => OkReply(r, outcome.state.next)
    case Err(e) => ErrorReply(e)
  }

  /** The replies that requests deserve when they are served one after the other. */
  function Results(s: State, rs: seq<Request>): seq<Message> {
    if rs == [] then []
    else Results(s, rs[..|rs| - 1]) + [ReplyTo(Run(s, rs[..|rs| - 1]), rs[|rs| - 1])]
  }

  // ----- conversations -----

  /** The calls of server methods that the messages ask for. */
  function Calls(asked: seq<Message>): seq<Request> {
    if asked == [] then []
    else
      Calls(asked[..|asked| - 1])
      + match React(asked[|asked| - 1]) case Call(r) => [r] case Reply(_, _) => []
  }

  /** One reply for each message asked: at once where no call is needed, and otherwise the result of
      the call, given the results of all the calls. */
  function Answers(asked: seq<Message>, results: seq<Message>): seq<Message> {
    if asked == [] then []
    else
      var init := asked[..|asked| - 1];
      match React(asked[|asked| - 1])
      case Reply(msg, _) => Answers(init, results) + [msg]
      case Call(_) =>
        if results == [] then Answers(init, results)
        else Answers(init, results[..|results| - 1]) + [results[|results| - 1]]
  }

  lemma CallsSnoc(asked: seq<Message>, m: Message)
    ensures Calls(asked + [m]) == Calls(asked) + match React(m) case Call(r) => [r] case Reply(_, _) => []
  {
    assert (asked + [m])[..|asked|] == asked;
  }

  lemma AnswersReply(asked: seq<Message>, m: Message, results: seq<Message>)
    requires React(m).Reply?
    ensures Answers(asked + [m], results) == Answers(asked, results) + [React(m).msg]
  {
    assert (asked + [m])[..|asked|] == asked;
  }

  lemma AnswersCall(asked: seq<Message>, m: Message, results: seq<Message>, result: Message)
    requires React(m).Call?
    ensures Answers(asked + [m], results + [result]) == Answers(asked, results) + [result]
  {
    assert (asked + [m])[..|asked|] == asked && (results + [result])[..|results|] == results;
  }

  /** There is one reply for each message, if there is one result for each call. */
  lemma {:induction false} AnswersCount(asked: seq<Message>, results: seq<Message>)
    requires |results| == |Calls(asked)|
    ensures |Answers(asked, results)| == |asked|
  {
    if asked != [] {
      var init := asked[..|asked| - 1];
      if React(asked[|asked| - 1]).Call? {
        AnswersCount(init, results[..|results| - 1]);
      } else {
        AnswersCount(init, results);
      }
    }
  }

  /** The reply to each message: at once, or the result of its own call. */
  lemma {:induction false} AnswersAt(asked: seq<Message>, results: seq<Message>, i: nat)
    requires |results| == |Calls(asked)| && i < |asked|
    ensures |Answers(asked, results)| == |asked|
    ensures match React(asked[i])
            case Reply(msg, _) => Answers(asked, results)[i] == msg
            case Call(r) =>
              var j := |Calls(asked[..i])|;
              j < |results| && Calls(asked)[j] == r && Answers(asked, results)[i] == results[j]
  {
    var init, m := asked[..|asked| - 1], asked[|asked| - 1];
    var before := if React(m).Call? then results[..|results| - 1] else results;
    AnswersCount(asked, results);
    AnswersCount(init, before);
    if i < |init| {
      AnswersAt(init, before, i);
      assert init[..i] == asked[..i] && init[i] == asked[i];
    } else {
      assert asked[..i] == init;
    }
  }

  /** Conversations can be put together. */
  lemma {:induction false} AnswersAppend(a: seq<Message>, ra: seq<Message>, b: seq<Message>, rb: seq<Message>)
    requires |rb| == |Calls(b)|
    ensures Answers(a + b, ra + rb) == Answers(a, ra) + Answers(b, rb)
  {
    if b == [] {
      assert a + b == a && ra + rb == ra;
    } else {
      var init, m := b[..|b| - 1], b[|b| - 1];
      assert b == init + [m];
      if React(m).Call? {
        var before, result := rb[..|rb| - 1], rb[|rb| - 1];
        assert rb == before + [result];
        AnswersAppend(a, ra, init, before);
        OneMoreCall(a, ra, init, before, m, result);
      } else {
        AnswersAppend(a, ra, init, rb);
        OneMoreMessage(a, ra, init, rb, m);
      }
    }
  }

  lemma Regroup<T>(a: seq<T>, b: seq<T>, x: T)
    ensures a + (b + [x]) == (a + b) + [x]
  {
  }

  lemma OneMoreCall(a: seq<Message>, ra: seq<Message>, b: seq<Message>, rb: seq<Message>, m: Message, result: Message)
    requires React(m).Call? && Answers(a + b, ra + rb) == Answers(a, ra) + Answers(b, rb)
    ensures Answers(a + (b + [m]), ra + (rb + [result])) == Answers(a, ra) + Answers(b + [m], rb + [result])
  {
    Regroup(a, b, m);
    Regroup(ra, rb, result);
    AnswersCall(a + b, m, ra + rb, result);
    AnswersCall(b, m, rb, result);
    Regroup(Answers(a, ra), Answers(b, rb), result);
  }

  lemma OneMoreMessage(a: seq<Message>, ra: seq<Message>, b: seq<Message>, rb: seq<Message>, m: Message)
    requires React(m).Reply? && Answers(a + b, ra + rb) == Answers(a, ra) + Answers(b, rb)
    ensures Answers(a + (b + [m]), ra + rb) == Answers(a, ra) + Answers(b + [m], rb)
  {
    Regroup(a, b, m);
    AnswersReply(a + b, m, ra + rb);
    AnswersReply(b, m, rb);
    Regroup(Answers(a, ra), Answers(b, rb), React(m).msg);
  }

  lemma {:induction false} CallsAppend(a: seq<Message>, b: seq<Message>)
    ensures Calls(a + b) == Calls(a) + Calls(b)
  {
    if b == [] {
      assert a + b == a;
    } else {
      assert (a + b)[..|a + b| - 1] == a + b[..|b| - 1];
      CallsAppend(a, b[..|b| - 1]);
    }
  }

  lemma {:induction false} ResultsAppend(s: State, a: seq<Request>, b: seq<Request>)
    ensures Results(s, a + b) == Results(s, a) + Results(Run(s, a), b)
    ensures |Results(s, b)| == |b|
  {
    if b == [] {
      assert a + b == a;
    } else {
      assert (a + b)[..|a + b| - 1] == a + b[..|b| - 1];
      ResultsAppend(s, a, b[..|b| - 1]);
      RunAppend(s, a, b[..|b| - 1]);
    }
  }
}
