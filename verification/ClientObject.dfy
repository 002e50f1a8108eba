/** Class Client of src/client.cpp as straight-line code, with one connection at a time: what it
    does to the server and what it answers. Machine.dfy has the same statements interleaved. */
module ClientObject {
  import opened Wrappers
  import opened Model
  import opened Text
  import opened Wire
  import opened WireProofs
  import opened Objects
  import opened ServerSpec
  import opened ServerLaws
  import opened ServerObject
  import opened Protocol
  import opened ProtocolLaws

  // ----- what a conversation should be -----

  /** The outcome of one message: the server's state, the reply, and whether the loop goes on. */
  datatype Turn = Turn(state: State, reply: Message, more: bool)

  function TurnOf(s: State, m: Message): Turn {
    match React(m)
    case Reply(msg, more) => Turn(s, msg, more)
    case Call(r) => Turn(After(s, r), ReplyTo(s, r), true)
  }

  datatype Dialogue = Dialogue(state: State, replies: seq<Message>)

  /** The conversation with a peer that sends the given frames and then hangs up: it also ends with
      a frame that does not decode, or with a turn that says so. */
  function Converse(decode: string -> Result<Message>, turn: (State, Message) -> Turn, s: State,
                    frames: seq<string>): Dialogue
    decreases |frames|
  {
    if frames == [] || decode(frames[0]).Err? then Dialogue(s, [])
    else
      var t := turn(s, decode(frames[0]).value);
      var rest := if t.more then Converse(decode, turn, t.state, frames[1..]) else Dialogue(t.state, []);
      Dialogue(rest.state, [t.reply] + rest.replies)
  }

  predicate Ends(m: Message) {
    React(m).Reply? && !React(m).more
  }

  /** The messages that are answered: those before the first frame that does not decode, up to a QUIT. */
  function Decoded(decode: string -> Result<Message>, frames: seq<string>): seq<Message> {
    if frames == [] || decode(frames[0]).Err? then []
    else
      var m := decode(frames[0]).value;
      [m] + if Ends(m) then [] else Decoded(decode, frames[1..])
  }

  /** A turn runs the call that the message asks for, if any, and answers as it deserves. */
  ghost predicate Obeys(s: State, m: Message, t: Turn) {
    && (t.more <==> !Ends(m))
    && t.state == Run(s, Calls([m])) && [t.reply] == Answers([m], Results(s, Calls([m])))
  }

  lemma TurnObeys(s: State, m: Message)
    ensures Obeys(s, m, TurnOf(s, m))
  {
    var none: seq<Message> := [];
    assert [m] == none + [m];
    CallsSnoc(none, m);
    match React(m) {
      case Reply(msg, more) =>
        AnswersReply(none, m, none);
      case Call(r) =>
        assert [r][..0] == [];
        assert Run(s, [r]) == After(s, r);
        assert Results(s, [r]) == none + [ReplyTo(s, r)];
        AnswersCall(none, m, none, ReplyTo(s, r));
    }
  }

  lemma {:induction false} ConverseRuns(decode: string -> Result<Message>, turn: (State, Message) -> Turn,
                                        s: State, frames: seq<string>)
    requires forall s, m :: Obeys(s, m, turn(s, m))
    ensures var d, asked := Converse(decode, turn, s, frames), Decoded(decode, frames);
            d.state == Run(s, Calls(asked)) && d.replies == Answers(asked, Results(s, Calls(asked)))
    decreases |frames|
  {
    if frames != [] && decode(frames[0]).Ok? {
      var m := decode(frames[0]).value;
      var t := turn(s, m);
      assert Obeys(s, m, t);
      if t.more {
        ConverseRuns(decode, turn, t.state, frames[1..]);
      }
      var rest := if t.more then Converse(decode, turn, t.state, frames[1..]) else Dialogue(t.state, []);
      ConverseStep(s, m, t, rest, if t.more then Decoded(decode, frames[1..]) else []);
    }
  }

  lemma ConverseStep(s: State, m: Message, t: Turn, rest: Dialogue, asked: seq<Message>)
    requires Obeys(s, m, t)
    requires rest.state == Run(t.state, Calls(asked)) && rest.replies == Answers(asked, Results(t.state, Calls(asked)))
    ensures rest.state == Run(s, Calls([m] + asked))
    ensures [t.reply] + rest.replies == Answers([m] + asked, Results(s, Calls([m] + asked)))
  {
    var first, others := Calls([m]), Calls(asked);
    CallsAppend([m], asked);
    RunAppend(s, first, others);
    ResultsAppend(s, first, others);
    ResultsAppend(t.state, [], others);
    AnswersAppend([m], Results(s, first), asked, Results(t.state, others));
  }

  /** Each frame up to the first that does not decode, or a QUIT, gets one reply; what the conversation
      does is to run the calls that these frames ask for, one after the other, of which exactly those
      listed by Accepted are accepted; and each call is answered as it deserves at its place. */
  lemma ConversationRuns(s: State, frames: seq<string>)
    ensures var d, asked := Converse(Decode, TurnOf, s, frames), Decoded(Decode, frames);
            && d.state == Run(s, Calls(asked)) && d.replies == Answers(asked, Results(s, Calls(asked)))
            && |d.replies| == |asked|
            && AllAccepted(s, Accepted(s, Calls(asked))) && d.state == Run(s, Accepted(s, Calls(asked)))
  {
    forall s, m
      ensures Obeys(s, m, TurnOf(s, m))
    {
      TurnObeys(s, m);
    }
    ConverseRuns(Decode, TurnOf, s, frames);
    var asked := Decoded(Decode, frames);
    ResultsAppend(s, [], Calls(asked));
    AnswersCount(asked, Results(s, Calls(asked)));
    AcceptedMakeTheRun(s, Calls(asked));
  }

  lemma {:induction false} ConverseAt(decode: string -> Result<Message>, turn: (State, Message) -> Turn,
                                      s: State, frames: seq<string>, i: nat)
    requires i < |Converse(decode, turn, s, frames).replies|
    ensures i < |frames| && decode(frames[i]).Ok?
    ensures var t := turn(Converse(decode, turn, s, frames[..i]).state, decode(frames[i]).value);
            && Converse(decode, turn, s, frames).replies[i] == t.reply
            && Converse(decode, turn, s, frames[..i + 1]).state == t.state
    decreases i
  {
    var t := turn(s, decode(frames[0]).value);
    if i == 0 {
      assert frames[..1][1..] == [];
    } else {
      ConverseAt(decode, turn, t.state, frames[1..], i - 1);
      assert frames[..i][1..] == frames[1..][..i - 1] && frames[..i + 1][1..] == frames[1..][..i];
    }
  }

  /** Every reply is the answer to its own frame, in the state that the frames before it lead to, as the
      laws of a conversation say; and an ERROR leaves that state as it is. */
  lemma EveryFrameIsAnswered(s: State, frames: seq<string>, i: nat)
    requires i < |Converse(Decode, TurnOf, s, frames).replies|
    ensures i < |frames| && Decode(frames[i]).Ok?
    ensures var before, after := Converse(Decode, TurnOf, s, frames[..i]).state,
            Converse(Decode, TurnOf, s, frames[..i + 1]).state;
            var reply := Converse(Decode, TurnOf, s, frames).replies[i];
            && reply == TurnOf(before, Decode(frames[i]).value).reply
            && after == TurnOf(before, Decode(frames[i]).value).state
            && (reply.kind != OK ==> after == before)
            && var m := Decode(frames[i]).value; Turns(before, m, after, reply, m.kind != QUIT)
  {
    ConverseAt(Decode, TurnOf, s, frames, i);
    TurnTurns(Converse(Decode, TurnOf, s, frames[..i]).state, Decode(frames[i]).value);
    ErrorKeepsState(Converse(Decode, TurnOf, s, frames[..i]).state, Decode(frames[i]).value);
  }

  lemma TurnTurns(s: State, m: Message)
    ensures var t := TurnOf(s, m); Turns(s, m, t.state, t.reply, t.more)
  {
    var t := TurnOf(s, m);
    ReactExactly(s, m, t.state, t.reply, t.more);
  }

  /** The conversation is over after a QUIT, at a frame that does not decode, or with the last frame, and
      not before. */
  ghost predicate EndsAt(decode: string -> Result<Message>, frames: seq<string>, n: nat) {
    && n <= |frames|
    && (forall i | 0 <= i < n :: decode(frames[i]).Ok?)
    && (forall i | 0 <= i < n - 1 :: decode(frames[i]).value.kind != QUIT)
    && (n < |frames| ==> decode(frames[n]).Err? || (n > 0 && decode(frames[n - 1]).value.kind == QUIT))
  }

  lemma {:induction false} ConverseEnds(decode: string -> Result<Message>, turn: (State, Message) -> Turn, s: State,
                                        frames: seq<string>)
    requires forall s, m :: turn(s, m).more <==> m.kind != QUIT
    ensures EndsAt(decode, frames, |Converse(decode, turn, s, frames).replies|)
    decreases |frames|
  {
    if frames != [] && decode(frames[0]).Ok? {
      var t := turn(s, decode(frames[0]).value);
      if t.more {
        ConverseEnds(decode, turn, t.state, frames[1..]);
        EndsLater(decode, frames, |Converse(decode, turn, t.state, frames[1..]).replies|);
      }
    }
  }

  lemma EndsLater(decode: string -> Result<Message>, frames: seq<string>, n: nat)
    requires frames != [] && decode(frames[0]).Ok? && decode(frames[0]).value.kind != QUIT
    requires EndsAt(decode, frames[1..], n)
    ensures EndsAt(decode, frames, n + 1)
  {
    forall i | 0 <= i < n + 1
      ensures decode(frames[i]).Ok? && (i < n ==> decode(frames[i]).value.kind != QUIT)
    {
      if i > 0 {
        assert frames[i] == frames[1..][i - 1];
      }
    }
    assert n > 0 ==> frames[n] == frames[1..][n - 1];
    assert n < |frames[1..]| ==> frames[n + 1] == frames[1..][n];
  }

  /** As many frames are answered as come before that end, a QUIT included. */
  lemma ConversationEnds(s: State, frames: seq<string>)
    ensures EndsAt(Decode, frames, |Converse(Decode, TurnOf, s, frames).replies|)
  {
    forall s, m
      ensures TurnOf(s, m).more <==> m.kind != QUIT
    {
      TurnTurns(s, m);
    }
    ConverseEnds(Decode, TurnOf, s, frames);
  }

  lemma ErrorKeepsState(s: State, m: Message)
    ensures TurnOf(s, m).reply.kind != OK ==> TurnOf(s, m).state == s
  {
  }

  /** The checks for missing fields never fail on what the decoder lets through: every decoded request
      of the three kinds calls its server method, with the fields that it carries. */
  lemma DecodedRequestsAreCalled(raw: string, m: Message)
    requires Decode(raw) == Ok(m)
    ensures m.kind == ORDER_NEW ==> m.order.Some? && React(m) == Call(NewOrder(m.order.value))
    ensures m.kind == ITEM_UPDATE ==> React(m) == Call(ItemUpdate(m.orderId, m.itemId, m.itemStatus))
    ensures m.kind == ORDER_UPDATE ==> React(m) == Call(OrderUpdate(m.orderId, m.orderStatus))
  {
    DecodeImage(raw, m);
  }

  // ----- updater_loop -----

  /** The part of updater_loop that calls the server. */
  method CallServer(server: Server, r: Request) returns (reply: Message)
    requires server.Valid()
    modifies server.Repr
    ensures server.Valid() && fresh(server.Repr - old(server.Repr))
    ensures server.state == After(old(server.state), r) && reply == ReplyTo(old(server.state), r)
    ensures Called(old(server.state), r, server.state, reply)
  {
    CalledExactly(server.state, r, After(server.state, r), ReplyTo(server.state, r));
    match r {
      case NewOrder(o) =>
        var order := BuildOrder(o);
        var id := server.ProcessNewOrder(order);
        return StrMessage(OK, "Created order id " + ToString(id));
      case ItemUpdate(orderId, itemId, st) =>
        var result := server.ProcessItemUpdate(orderId, itemId, st);
        return if result.Ok? then StrMessage(OK, "successful item update") else ErrorReply(result.error);
      case OrderUpdate(orderId, st) =>
        var result := server.ProcessOrderUpdate(orderId, st);
        return if result.Ok? then StrMessage(OK, "successful order update") else ErrorReply(result.error);
    }
  }

  /** One request of updater_loop. */
  method ServeRequest(server: Server, m: Message) returns (reply: Message, more: bool)
    requires server.Valid()
    modifies server.Repr
    ensures server.Valid() && fresh(server.Repr - old(server.Repr))
    ensures var turn := TurnOf(old(server.state), m);
            server.state == turn.state && reply == turn.reply && more == turn.more
    ensures Turns(old(server.state), m, server.state, reply, more)
  {
    TurnTurns(server.state, m);
    if m.kind == QUIT {
      return StrMessage(OK, "bye"), false;
    }
    var checked := CheckRequest(m);
    more := true;
    if checked.Call? {
      reply := CallServer(server, checked.request);
    } else {
      reply := checked.msg;
    }
  }

  /** The checks of the fields that a request needs. */
  method CheckRequest(m: Message) returns (r: Reaction)
    requires m.kind != QUIT
    ensures r == React(m) && (r.Reply? ==> r.more)
  {
    if m.kind == ORDER_NEW {
      return if !m.HasOrder() then Reply(StrMessage(ERROR, "missing order"), true) else Call(NewOrder(m.order.value));
    } else if m.kind == ITEM_UPDATE {
      if !m.HasOrderId() || !m.HasItemId() || !m.HasItemStatus() {
        return Reply(StrMessage(ERROR, "missing item fields"), true);
      }
      return Call(ItemUpdate(m.orderId, m.itemId, m.itemStatus));
    } else if m.kind == ORDER_UPDATE {
      if !m.HasOrderId() || !m.HasOrderStatus() {
        return Reply(StrMessage(ERROR, "missing order fields"), true);
      }
      return Call(OrderUpdate(m.orderId, m.orderStatus));
    }
    return Reply(StrMessage(ERROR, "Updater: unexpected message type"), true);
  }

  /** Client::updater_loop, on the frames that arrive before the connection ends. */
  method UpdaterLoop(server: Server, frames: seq<string>) returns (replies: seq<Message>)
    requires server.Valid()
    modifies server.Repr
    ensures server.Valid() && fresh(server.Repr - old(server.Repr))
    ensures var d := Converse(Decode, TurnOf, old(server.state), frames);
            server.state == d.state && replies == d.replies
  {
    replies := [];
    ghost var all := Converse(Decode, TurnOf, server.state, frames);
    var running, i := true, 0;
    while running && i < |frames|
      invariant i <= |frames| && server.Valid() && fresh(server.Repr - old(server.Repr))
      invariant Sofar(all, replies, Ahead(server.state, running, frames, i))
    {
      var m := Decode(frames[i]);
      if m.Err? {
        HangsUp(server.state, frames, i);
        running := false;
      } else {
        running, replies := AnswerFrame(server, frames, i, m.value, replies, all);
        i := i + 1;
      }
    }
    assert replies + [] == replies;
  }

  /** What is still to come of a conversation. */
  function Ahead(s: State, running: bool, frames: seq<string>, i: nat): Dialogue
    requires i <= |frames|
  {
    if running then Converse(Decode, TurnOf, s, frames[i..]) else Dialogue(s, [])
  }

  lemma HangsUp(s: State, frames: seq<string>, i: nat)
    requires i < |frames| && Decode(frames[i]).Err?
    ensures Ahead(s, true, frames, i) == Ahead(s, false, frames, i)
  {
    ConverseNext(Decode, TurnOf, s, frames, i, []);
  }

  /** The conversation is what was said and what is still to come. */
  ghost predicate Sofar(all: Dialogue, replies: seq<Message>, rest: Dialogue) {
    all.state == rest.state && all.replies == replies + rest.replies
  }

  /** One turn of the loop, on a frame that decodes. */
  method AnswerFrame(server: Server, frames: seq<string>, i: nat, m: Message, replies: seq<Message>,
                     ghost all: Dialogue)
    returns (more: bool, replies': seq<Message>)
    requires server.Valid() && i < |frames| && Decode(frames[i]) == Ok(m)
    requires Sofar(all, replies, Ahead(server.state, true, frames, i))
    modifies server.Repr
    ensures server.Valid() && fresh(server.Repr - old(server.Repr))
    ensures Sofar(all, replies', Ahead(server.state, more, frames, i + 1))
  {
    ConverseNext(Decode, TurnOf, server.state, frames, i, replies);
    var reply;
    reply, more := ServeRequest(server, m);
    replies' := replies + [reply];
  }

  lemma ConverseNext(decode: string -> Result<Message>, turn: (State, Message) -> Turn,
                     s: State, frames: seq<string>, i: nat, replies: seq<Message>)
    requires i < |frames|
    ensures var d := Converse(decode, turn, s, frames[i..]);
            if decode(frames[i]).Err? then d == Dialogue(s, [])
            else
              var t := turn(s, decode(frames[i]).value);
              var rest := if t.more then Converse(decode, turn, t.state, frames[i + 1..])
                  else Dialogue(t.state, []);
              d.state == rest.state && replies + d.replies == (replies + [t.reply]) + rest.replies
  {
    assert frames[i..][0] == frames[i] && frames[i..][1..] == frames[i + 1..];
  }

  // ----- display_loop -----

  /** What happens in one turn: the wait times out or not, and the send succeeds or not. */
  datatype Round = Round(timedOut: bool, sendOk: bool)

  function WithoutHeartbeats(ms: seq<Message>): seq<Message> {
    if ms == [] then []
    else WithoutHeartbeats(ms[..|ms| - 1]) + if ms[|ms| - 1].kind == DISP_HEARTBEAT then [] else [ms[|ms| - 1]]
  }

  lemma {:induction false} SnapshotKinds(orders: Orders)
    ensures forall m | m in Snapshot(orders) :: m.kind == DISP_ORDER
    decreases orders.Keys
  {
    if orders != map[] {
      SnapshotKinds(orders - {MinKey(orders)});
    }
  }

  /** What display_loop passes to send_message in one turn. */
  method NextMessage(server: Server, queue: MessageQueue, timedOut: bool) returns (m: Message)
    requires server.Valid() && queue in server.displays
    modifies queue
    ensures server.Valid()
    ensures if timedOut || old(queue.contents) == [] then m == HEARTBEAT && queue.contents == old(queue.contents)
            else old(queue.contents) == [m] + queue.contents
  {
    var taken := server.TakeMessage(queue, timedOut);
    if taken.None? {
      return HEARTBEAT;
    }
    m := taken.value.Read();
  }

  /** Every turn keeps the messages in order. */
  ghost predicate SnapshotOrder(attempts: seq<Message>, queued: seq<Message>, snapshot: seq<Message>) {
    WithoutHeartbeats(attempts) + queued == snapshot && forall m | m in queued :: m.kind == DISP_ORDER
  }

  lemma SnapshotOrderNext(attempts: seq<Message>, queued: seq<Message>, m: Message, queued': seq<Message>,
                          snapshot: seq<Message>)
    requires SnapshotOrder(attempts, queued, snapshot)
    requires (m == HEARTBEAT && queued' == queued) || queued == [m] + queued'
    ensures SnapshotOrder(attempts + [m], queued', snapshot)
  {
    assert (attempts + [m])[..|attempts|] == attempts;
    if queued == [m] + queued' {
      assert queued[0] == m && m in queued;
      assert forall x | x in queued' :: x in queued;
      assert WithoutHeartbeats(attempts) + ([m] + queued') == (WithoutHeartbeats(attempts) + [m]) + queued';
    }
  }

  ghost predicate IsHeartbeat(m: Message) {
    m == Message(DISP_HEARTBEAT, ClientMode.INVALID, "", None, -1, OrderStatus.INVALID, -1, ItemStatus.INVALID)
  }

  /** Each turn passes on a heartbeat if the wait times out or the whole snapshot has been passed on, and
      the next message of the snapshot otherwise. */
  ghost predicate Paced(rounds: seq<Round>, attempts: seq<Message>, snapshot: seq<Message>) {
    && |attempts| <= |rounds|
    && forall i | 0 <= i < |attempts| ::
         && (attempts[i].kind == DISP_HEARTBEAT <==>
             rounds[i].timedOut || |WithoutHeartbeats(attempts[..i])| == |snapshot|)
         && (attempts[i].kind == DISP_HEARTBEAT ==> IsHeartbeat(attempts[i]))
  }

  lemma PacedNext(rounds: seq<Round>, attempts: seq<Message>, queued: seq<Message>, m: Message, snapshot: seq<Message>)
    requires Paced(rounds, attempts, snapshot) && SnapshotOrder(attempts, queued, snapshot)
    requires |attempts| < |rounds|
    requires if rounds[|attempts|].timedOut || queued == [] then m == HEARTBEAT else m == queued[0]
    ensures Paced(rounds, attempts + [m], snapshot)
  {
    var n, after := |attempts|, attempts + [m];
    assert queued != [] ==> queued[0] in queued;
    forall i | 0 <= i < |after|
      ensures after[i].kind == DISP_HEARTBEAT <==>
              rounds[i].timedOut || |WithoutHeartbeats(after[..i])| == |snapshot|
      ensures after[i].kind == DISP_HEARTBEAT ==> IsHeartbeat(after[i])
    {
      if i < n {
        assert after[..i] == attempts[..i];
      } else {
        assert after[..n] == attempts;
      }
    }
  }

  ghost predicate AllSent(rounds: seq<Round>, n: nat) {
    n <= |rounds| && forall i | 0 <= i < n :: rounds[i].sendOk
  }

  /** The loop goes on exactly as long as sending succeeds. */
  ghost predicate GoesOn(rounds: seq<Round>, n: nat) {
    && n <= |rounds| && (n > 0 ==> AllSent(rounds, n - 1))
    && (n < |rounds| ==> n > 0 && !rounds[n - 1].sendOk)
  }

  lemma OneMoreSent(rounds: seq<Round>, n: nat)
    requires AllSent(rounds, n) && n < |rounds| && rounds[n].sendOk
    ensures AllSent(rounds, n + 1)
  {
  }

  /** Client::display_loop while nothing else happens: the display is registered, is sent its
      snapshot in order, and is not registered afterwards, however the loop ends. */
  method DisplayLoop(server: Server, queue: MessageQueue, rounds: seq<Round>) returns (attempts: seq<Message>)
    requires server.Valid() && queue.Valid() && queue.contents == []
    requires queue !in server.displays && queue.Repr !! server.Repr
    modifies server.Repr, queue
    ensures server.Valid() && server.displays == old(server.displays) && server.state == old(server.state)
    ensures SnapshotOrder(attempts, queue.contents, Snapshot(old(server.state).orders))
    ensures InKeyOrder(old(server.state).orders, WithoutHeartbeats(attempts) + queue.contents)
    ensures Paced(rounds, attempts, Snapshot(old(server.state).orders)) && GoesOn(rounds, |attempts|)
  {
    ghost var snapshot := Snapshot(server.state.orders);
    SnapshotKinds(server.state.orders);
    SnapshotIsListed(server.state.orders);
    server.RegisterDisplay(queue);
    assert queue.contents == snapshot;
    NothingSent(snapshot);
    attempts := ServeDisplay(server, queue, rounds, snapshot);
    server.UnregisterDisplay(queue);
    AddedAndRemoved(old(server.displays), queue);
    SnapshotIs(attempts, queue.contents, snapshot);
  }

  lemma NothingSent(snapshot: seq<Message>)
    requires forall m | m in snapshot :: m.kind == DISP_ORDER
    ensures SnapshotOrder([], snapshot, snapshot)
  {
  }

  lemma AddedAndRemoved<T>(a: set<T>, x: T)
    requires x !in a
    ensures a + {x} - {x} == a
  {
  }

  lemma SnapshotIs(attempts: seq<Message>, queued: seq<Message>, snapshot: seq<Message>)
    requires SnapshotOrder(attempts, queued, snapshot)
    ensures WithoutHeartbeats(attempts) + queued == snapshot
  {
  }

  method ServeDisplay(server: Server, queue: MessageQueue, rounds: seq<Round>, ghost snapshot: seq<Message>)
    returns (attempts: seq<Message>)
    requires server.Valid() && queue in server.displays && SnapshotOrder([], queue.contents, snapshot)
    modifies queue
    ensures server.Valid() && SnapshotOrder(attempts, queue.contents, snapshot)
    ensures Paced(rounds, attempts, snapshot) && GoesOn(rounds, |attempts|)
  {
    attempts := [];
    for i := 0 to |rounds|
      invariant server.Valid() && SnapshotOrder(attempts, queue.contents, snapshot)
      invariant |attempts| == i && Paced(rounds, attempts, snapshot)
      invariant AllSent(rounds, i)
    {
      attempts := PassOn(server, queue, rounds, attempts, snapshot);
      if !rounds[i].sendOk {
        break;
      }
      OneMoreSent(rounds, i);
    }
  }

  /** One turn of the loop. */
  method PassOn(server: Server, queue: MessageQueue, rounds: seq<Round>, attempts: seq<Message>,
                ghost snapshot: seq<Message>)
    returns (attempts': seq<Message>)
    requires server.Valid() && queue in server.displays && |attempts| < |rounds|
    requires SnapshotOrder(attempts, queue.contents, snapshot) && Paced(rounds, attempts, snapshot)
    modifies queue
    ensures server.Valid() && SnapshotOrder(attempts', queue.contents, snapshot)
    ensures |attempts'| == |attempts| + 1 && Paced(rounds, attempts', snapshot)
  {
    ghost var queued := queue.contents;
    var m := NextMessage(server, queue, rounds[|attempts|].timedOut);
    SnapshotOrderNext(attempts, queued, m, queue.contents, snapshot);
    PacedNext(rounds, attempts, queued, m, snapshot);
    attempts' := attempts + [m];
  }

  // ----- chat -----

  /** What a connection is sent, by the first frame that it sends itself. */
  ghost predicate ChatOutcome(users: set<string>, frames: seq<string>, rounds: seq<Round>, s: State, s': State,
                              queued: seq<Message>, sent: seq<Message>) {
    if frames == [] then sent == [] && s' == s
    else
      match Greet(users, frames[0])
      case HangUp => sent == [] && s' == s
      case Deny(reply) => sent == [reply] && s' == s
      case Admit(mode) =>
        if mode == DISPLAY then
          && sent != [] && sent[0] == LOGIN_OK && SnapshotOrder(sent[1..], queued, Snapshot(s.orders)) && s' == s
          && Paced(rounds, sent[1..], Snapshot(s.orders)) && GoesOn(rounds, |sent[1..]|)
        else
          var d := Converse(Decode, TurnOf, s, frames[1..]);
          sent == [LOGIN_OK] + d.replies && s' == d.state
  }

  /** The answer to the first frame: users are let in, other credentials are turned down, and any other
      frame ends the connection without an answer. */
  ghost predicate FirstAnswer(users: set<string>, raw: string, s: State, s': State, sent: seq<Message>) {
    if exists mode, c :: c in users && LoginText(raw, mode, c) then
      sent != [] && Says(sent[0], OK, "Login successful")
    else if exists mode, c :: LoginText(raw, mode, c) then
      |sent| == 1 && Says(sent[0], ERROR, "Invalid credentials") && s' == s
    else sent == [] && s' == s
  }

  lemma ChatAnswersFirst(users: set<string>, frames: seq<string>, rounds: seq<Round>, s: State, s': State,
                         queued: seq<Message>, sent: seq<Message>)
    requires frames != [] && ChatOutcome(users, frames, rounds, s, s', queued, sent)
    ensures FirstAnswer(users, frames[0], s, s', sent)
  {
    var raw := frames[0];
    GreetGreets(users, raw);
    if mode, c :| c in users && LoginText(raw, mode, c) {
      forall mode', c' | LoginText(raw, mode', c')
        ensures c' == c
      {
        LoginIsUnique(raw, mode, c, mode', c');
      }
    }
  }

  /** The rest of Client::chat, on a LOGIN that is complete. */
  method Welcome(server: Server, users: set<string>, queue: MessageQueue, login: Message, frames: seq<string>,
                 rounds: seq<Round>)
    returns (sent: seq<Message>)
    requires server.Valid() && queue.Valid() && queue.contents == []
    requires queue !in server.displays && queue.Repr !! server.Repr
    requires frames != [] && Decode(frames[0]) == Ok(login) && login.kind == LOGIN && login.HasMode() && login.HasStr()
    modifies server.Repr, queue
    ensures server.Valid()
    ensures ChatOutcome(users, frames, rounds, old(server.state), server.state, queue.contents, sent)
  {
    if login.str !in users {
      return [StrMessage(ERROR, "Invalid credentials")];
    }
    sent := [LOGIN_OK];
    if login.mode == DISPLAY {
      var attempts := DisplayLoop(server, queue, rounds);
      sent := sent + attempts;
      assert sent[1..] == attempts;
    } else {
      var replies := UpdaterLoop(server, frames[1..]);
      sent := sent + replies;
    }
  }

  /** Client::chat: nothing but the answer to its first frame without the credentials of a user. */
  method Chat(server: Server, users: set<string>, queue: MessageQueue, frames: seq<string>, rounds: seq<Round>)
    returns (sent: seq<Message>)
    requires server.Valid() && queue.Valid() && queue.contents == []
    requires queue !in server.displays && queue.Repr !! server.Repr
    modifies server.Repr, queue
    ensures server.Valid()
    ensures ChatOutcome(users, frames, rounds, old(server.state), server.state, queue.contents, sent)
    ensures if frames == [] then sent == [] else FirstAnswer(users, frames[0], old(server.state), server.state, sent)
  {
    sent := [];
    if frames != [] {
      var first := Decode(frames[0]);
      if first.Ok? && first.value.kind == LOGIN && first.value.HasMode() && first.value.HasStr() {
        sent := Welcome(server, users, queue, first.value, frames, rounds);
      }
      ChatAnswersFirst(users, frames, rounds, old(server.state), server.state, queue.contents, sent);
    }
  }
}
