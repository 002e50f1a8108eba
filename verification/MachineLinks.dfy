/** Messages on the wire: what each peer has been sent, byte for byte, and what its display shows. */
module MachineLinks {
  import opened Wrappers
  import opened Model
  import opened Text
  import opened Wire
  import opened WireProofs
  import opened Framing
  import opened Streams
  import opened ServerSpec
  import opened Protocol
  import opened Machine
  import opened MachineLocks
  import opened MachineLog
  import opened MachineFlow

  // ----- one link -----

  function TextOf(m: Message): string {
    if Encode(m).Ok? then Encode(m).value else ""
  }

  /** The message round-trips and its frame is not too long. */
  predicate Fits(m: Message) {
    Sendable(m) && |TextOf(m)| <= MAX_FRAMED - 1
  }

  /** The display program after a sequence of messages. */
  function ScreenAfter(screen: Screen, ms: seq<Message>): Screen {
    if ms == [] then screen else ScreenStep(ScreenAfter(screen, ms[..|ms| - 1]), ms[|ms| - 1])
  }

  /** The unread bytes are the frames of the unread messages, and the screen shows the read ones. */
  ghost predicate LinkOk(link: Link) {
    && All(Sendable, link.sent)
    && Carries(TextOf, link.sent, link.read, link.bytes, link.tail)
    && (if link.broken then Blocked(link.tail) else link.tail == "")
    && link.screen == ScreenAfter(LoggingIn, link.sent[..link.read])
  }

  /** Sending a message that fits appends it, or breaks the connection off inside its frame. */
  lemma TransmitKeeps(link: Link, m: Message, upto: nat)
    requires LinkOk(link) && Sendable(m) && Transmit(link, m, upto).Some?
    ensures var (link', ok) := Transmit(link, m, upto).value;
            && LinkOk(link') && link'.read == link.read
            && (ok ==> Fits(m) && !link.broken && !link'.broken && link'.sent == link.sent + [m])
            && (!ok ==> link'.sent == link.sent && (link'.broken || !Fits(m)))
            && (link.broken ==> link'.broken)
  {
    SendableRoundTrip(m);
    var text := TextOf(m);
    FrameRoundTrip(text, "");
    if Frame(text).Ok? && !link.broken {
      TransmitText(link, m, text, upto);
    }
  }

  lemma TransmitText(link: Link, m: Message, text: string, upto: nat)
    requires LinkOk(link) && !link.broken && Frame(text).Ok? && text == TextOf(m) && |text| <= MAX_FRAMED - 1
    requires Sendable(m) && upto <= |Frame(text).value|
    ensures var frame := Frame(text).value;
            if upto == |frame| then LinkOk(link.(bytes := link.bytes + frame, sent := link.sent + [m]))
            else LinkOk(link.(bytes := link.bytes + frame[..upto], tail := frame[..upto], broken := true))
  {
    var frame := Frame(text).value;
    if upto < |frame| {
      ProperPrefixBlocks(text, upto);
      CarriesPiece(TextOf, link.sent, link.read, link.bytes, frame[..upto]);
    } else {
      CarriesSend(TextOf, link.sent, link.read, link.bytes, m);
      assert (link.sent + [m])[..link.read] == link.sent[..link.read];
    }
  }

  /** The display program can read a frame only if a complete message is unread, and it reads that
      message exactly as it was sent. */
  lemma ReadKeeps(link: Link)
    requires LinkOk(link) && !Blocked(link.bytes)
    ensures link.read < |link.sent|
    ensures LinkOk(ReadFrame(link))
    ensures ReadFrame(link) ==
            link.(bytes := ReadFrame(link).bytes, read := link.read + 1,
                screen := ScreenStep(link.screen, link.sent[link.read]))
  {
    CarriesRead(TextOf, link.sent, link.read, link.bytes, link.tail);
    var m := link.sent[link.read];
    SendableRoundTrip(m);
    ReadFrameIs(link, TextOf(m), m);
    ScreenNext(link.sent, link.read);
  }

  lemma ScreenNext(sent: seq<Message>, read: nat)
    requires read < |sent|
    ensures ScreenAfter(LoggingIn, sent[..read + 1]) == ScreenStep(ScreenAfter(LoggingIn, sent[..read]), sent[read])
  {
    assert sent[..read + 1][..read] == sent[..read];
  }

  lemma ReadFrameIs(link: Link, text: string, m: Message)
    requires !Blocked(link.bytes) && Receive(link.bytes).result == Ok(text) && Decode(text) == Ok(m)
    ensures ReadFrame(link) ==
            link.(bytes := Receive(link.bytes).rest, read := link.read + 1, screen := ScreenStep(link.screen, m))
  {
  }

  // ----- one client -----

  /** The updates among a sequence of messages. */
  function Updates(ms: seq<Message>): seq<Message> {
    if ms == [] then []
    else Updates(ms[..|ms| - 1]) + if IsUpdate(ms[|ms| - 1]) then [ms[|ms| - 1]] else []
  }

  lemma UpdatesSnoc(ms: seq<Message>, m: Message)
    ensures Updates(ms + [m]) == Updates(ms) + if IsUpdate(m) then [m] else []
  {
    assert (ms + [m])[..|ms|] == ms;
  }

  /** The update in the thread's hands, popped and not yet sent. */
  function Hand(pc: Pc): seq<Message> {
    if (pc.Popped? || pc.Sending?) && IsUpdate(pc.msg) then [pc.msg] else []
  }

  /** The display loop proper. */
  predicate InLoop(pc: Pc) {
    pc.Waiting? || pc.Permitted? || pc.Popping? || pc.Popped? || pc.Sending?
        || (pc.Inside? && pc.job.Join? && pc.stage != Begin)
  }

  predicate Deliverable(m: Message) {
    Sendable(m) && IsUpdate(m)
  }

  /** The message that the thread is about to send, or has just popped. */
  function Carried(pc: Pc): Option<Message> {
    match pc
    case Answer(reply, _) => Some(reply)
    case Popped(m) => Some(m)
    case Sending(m) => Some(m)
    case _ => None
  }

  predicate MessageOk(pc: Pc) {
    Carried(pc).Some? ==> Sendable(Carried(pc).value)
  }

  predicate KindOk(pc: Pc) {
    match pc
    case Answer(reply, next) => !IsUpdate(reply) && (next == Enroll ==> reply == LOGIN_OK)
    case Popped(m) => IsUpdate(m)
    case Sending(m) => IsUpdate(m) || m == HEARTBEAT
    case _ => true
  }

  /** Where a thread can be, by the client mode it logged in with. */
  predicate ModeOk(mode: ClientMode, pc: Pc) {
    match pc
    case Login => mode == ClientMode.INVALID
    case Idle => mode == UPDATER
    case Answer(_, next) =>
      (next == Enroll ==> mode == DISPLAY) && (next != Enroll ==> mode != DISPLAY) && (next == Loop ==> mode == UPDATER)
    case Want(job) => if job.Serve? then mode == UPDATER else mode == DISPLAY
    case Inside(job, _, _, _) => if job.Serve? then mode == UPDATER else mode == DISPLAY
    case Gone => true
    case _ => mode == DISPLAY
  }

  /** A display is sent the login response first, and then updates and heartbeats only. */
  predicate DisplayStream(sent: seq<Message>) {
    sent != [] ==> sent[0] == LOGIN_OK && forall i | 1 <= i < |sent| :: IsUpdate(sent[i]) || sent[i] == HEARTBEAT
  }

  ghost predicate StreamOk(c: Client) {
    && (c.pc.Login? || (c.pc.Answer? && c.talk.mode == DISPLAY) ==> c.link.sent == [])
    && (c.talk.mode == DISPLAY ==> DisplayStream(c.link.sent))
    && (c.talk.mode == DISPLAY && !c.pc.Answer? && !c.link.broken ==> c.link.sent != [])
  }

  /** What was taken from the queue is what was sent, and the message in hand. */
  ghost predicate HandsOk(c: Client) {
    && Updates(c.link.sent) <= c.feed.taken
    && (InLoop(c.pc) && !c.link.broken ==> Updates(c.link.sent) + Hand(c.pc) == c.feed.taken)
    && (BeforeJoin(c.pc) ==> Updates(c.link.sent) == [])
  }

  /** Where the thread is fits what it has sent and taken. */
  ghost predicate PathOk(c: Client) {
    KindOk(c.pc) && ModeOk(c.talk.mode, c.pc) && StreamOk(c) && HandsOk(c)
  }

  ghost predicate ClientOk(c: Client) {
    LinkOk(c.link) && MessageOk(c.pc) && PathOk(c)
  }

  lemma FreshOk()
    ensures ClientOk(FRESH)
  {
    assert FRESH.link.sent[0..] == [] && FRESH.link.sent[..0] == [];
    assert Texts(TextOf, FRESH.link.sent[0..]) == [];
  }

  // ----- replies can be sent -----

  lemma TextReply(kind: MessageType, s: string)
    requires kind in {OK, ERROR} && s != "" && '|' !in s
    ensures Sendable(StrMessage(kind, s)) && !IsUpdate(StrMessage(kind, s))
  {
  }

  lemma LoginPcOk(users: set<string>, raw: string)
    ensures MessageOk(LoginPc(users, raw)) && KindOk(LoginPc(users, raw))
    ensures LoginPc(users, raw).Answer? || LoginPc(users, raw).Gone?
  {
    TextReply(ERROR, "Invalid credentials");
    TextReply(OK, "Login successful");
  }

  lemma RequestPcOk(m: Message)
    ensures MessageOk(RequestPc(m)) && KindOk(RequestPc(m)) && ModeOk(UPDATER, RequestPc(m))
  {
    TextReply(OK, "bye");
    TextReply(ERROR, "missing order");
    TextReply(ERROR, "missing item fields");
    TextReply(ERROR, "missing order fields");
    TextReply(ERROR, "Updater: unexpected message type");
  }

  lemma ErrorReplyOk(s: State, r: Request)
    requires Start(s, r).Err?
    ensures Sendable(ErrorReply(Start(s, r).error)) && !IsUpdate(ErrorReply(Start(s, r).error))
  {
    TextReply(ERROR, "order not found");
    TextReply(ERROR, "item not found");
    TextReply(ERROR, "invalid item status transition");
    TextReply(ERROR, "invalid order status transition");
  }

  lemma OkReplyOk(r: Request, next: int)
    ensures Sendable(OkReply(r, next)) && !IsUpdate(OkReply(r, next))
  {
    IntText(next - 1);
    TextReply(OK, "Created order id " + ToString(next - 1));
    TextReply(OK, "successful item update");
    TextReply(OK, "successful order update");
  }

  // ----- one step -----

  lemma LoginOkFits()
    ensures Fits(LOGIN_OK)
  {
    TextReply(OK, "Login successful");
  }

  /** The steps that move the thread on and leave its messages alone. */
  predicate PcMoves(before: Pc, after: Pc) {
    || ((before.Login? || before.Idle?) && after == Gone)
    || (before.Want? && after == Inside(before.job, Begin, [], Ready))
    || (before.Inside? && after.Inside? && after.job == before.job && after.stage == before.stage)
    || (before == Waiting && after in {Permitted, Sending(HEARTBEAT)})
    || (before == Permitted && after == Popping)
    || (before.Popped? && after == Sending(before.msg))
  }

  lemma PcMovesOn(s: Sys, e: Event)
    requires Can(s, e) && !e.Accept?
    requires !e.Send? && !e.Arrive? && !e.PopFront? && !e.Proceed? && !e.Display?
    ensures var c, me := s.clients[e.t], EffectOf(s, e).value.me;
            PcMoves(c.pc, me.pc) && me == c.(pc := me.pc, queue := me.queue)
  {
  }

  /** Where the carried message of the next point comes from. */
  lemma MessageSource(s: Sys, e: Event)
    requires Can(s, e)
    requires e.PopFront? && Own(s, e).pc.Popping? ==> Own(s, e).queue.items != []
    ensures FromSource(s, e, Own(s, e).pc, EffectOf(s, e).value.me.pc)
  {
    if !e.Accept? && !e.Send? && !e.Arrive? && !e.PopFront? && !e.Proceed? && !e.Display? {
      PcMovesOn(s, e);
    }
  }

  ghost predicate FromSource(s: Sys, e: Event, before: Pc, after: Pc)
    requires e.PopFront? && before.Popping? ==> Own(s, e).queue.items != []
  {
    || Carried(after) == Carried(before) || Carried(after) == None || Carried(after) == Some(HEARTBEAT)
    || (e.Arrive? && (before.Login? || before.Idle?) && (before.Login? ==> after == LoginPc(s.users, e.raw))
        && (before.Idle? ==> Decode(e.raw).Ok? && after == RequestPc(Decode(e.raw).value)))
    || (e.PopFront? && before.Popping? && Carried(after) == Some(Own(s, e).queue.items[0]))
    || (before.Inside? && before.job.Serve? && FromServer(s.shared.server, before.job.request, Carried(after)))
  }

  predicate FromServer(server: State, r: Request, m: Option<Message>) {
    || (Start(server, r).Err? && m == Some(ErrorReply(Start(server, r).error)))
    || m == Some(OkReply(r, server.next))
  }

  lemma FromServerOk(server: State, r: Request, m: Option<Message>)
    requires FromServer(server, r, m)
    ensures m.Some? && Sendable(m.value)
  {
    OkReplyOk(r, server.next);
    if Start(server, r).Err? {
      ErrorReplyOk(server, r);
    }
  }

  lemma MessageKept(s: Sys, e: Event)
    requires Can(s, e) && MessageOk(Own(s, e).pc)
    requires e.PopFront? && Own(s, e).pc.Popping? ==> Own(s, e).queue.items != [] && Sendable(Own(s, e).queue.items[0])
    ensures MessageOk(EffectOf(s, e).value.me.pc)
  {
    MessageSource(s, e);
    SourceOk(s, e, Own(s, e).pc, EffectOf(s, e).value.me.pc);
  }

  lemma SourceOk(s: Sys, e: Event, before: Pc, after: Pc)
    requires e.PopFront? && before.Popping? ==> Own(s, e).queue.items != [] && Sendable(Own(s, e).queue.items[0])
    requires MessageOk(before) && FromSource(s, e, before, after)
    ensures MessageOk(after)
  {
    if e.Arrive? {
      ArrivedOk(s.users, e.raw);
    }
    if before.Inside? && before.job.Serve? && FromServer(s.shared.server, before.job.request, Carried(after)) {
      FromServerOk(s.shared.server, before.job.request, Carried(after));
    }
    HeartbeatOk();
  }

  lemma HeartbeatOk()
    ensures Sendable(HEARTBEAT)
  {
  }

  lemma ArrivedOk(users: set<string>, raw: string)
    ensures MessageOk(LoginPc(users, raw)) && (Decode(raw).Ok? ==> MessageOk(RequestPc(Decode(raw).value)))
  {
    LoginPcOk(users, raw);
    if Decode(raw).Ok? {
      RequestPcOk(Decode(raw).value);
    }
  }

  lemma LinkKept(s: Sys, e: Event)
    requires Can(s, e) && LinkOk(Own(s, e).link) && MessageOk(Own(s, e).pc)
    ensures LinkOk(EffectOf(s, e).value.me.link)
  {
    if e.Send? {
      var c := s.clients[e.t];
      TransmitKeeps(c.link, Carried(c.pc).value, e.upto);
    } else if e.Display? {
      ReadKeeps(s.clients[e.t].link);
    } else if e.Accept? {
      FreshOk();
    } else {
      LinkUntouched(s, e);
    }
  }

  lemma LinkUntouched(s: Sys, e: Event)
    requires Can(s, e) && !e.Send? && !e.Display?
    ensures EffectOf(s, e).value.me.link == Own(s, e).link
  {
  }

  lemma SendKeepsPath(sh: Shared, c: Client, upto: nat, eff: Effect)
    requires LinkOk(c.link) && MessageOk(c.pc) && PathOk(c) && StepSend(sh, c, upto) == Some(eff)
    ensures PathOk(eff.me)
  {
    var m := Carried(c.pc).value;
    TransmitKeeps(c.link, m, upto);
    LoginOkFits();
    SentKeepsPath(c, eff.me, m, Fits(m));
  }

  lemma SentKeepsPath(c: Client, c': Client, m: Message, fits: bool)
    requires PathOk(c) && (c.pc.Sending? || c.pc.Answer?) && Carried(c.pc) == Some(m)
    requires c' == c.(pc := c'.pc, link := c'.link, talk := c.talk.(answered := c'.talk.answered))
    requires m == LOGIN_OK ==> fits
    requires c.link.broken ==> c'.link.broken
    requires || (c'.link.sent == c.link.sent + [m] && !c'.link.broken && (c.pc.Sending? ==> c'.pc == Waiting))
             || (c'.link.sent == c.link.sent && (c'.link.broken || !fits) && (c.pc.Sending? ==> c'.pc == Want(Leave)))
    requires c.pc.Answer? ==> c'.pc == match c.pc.next case Loop => Idle case Enroll => Want(Join) case Quit => Gone
    ensures PathOk(c')
  {
    UpdatesSnoc(c.link.sent, m);
    if c'.link.sent == c.link.sent + [m] {
      assert c.link.sent != [] ==> c'.link.sent[0] == c.link.sent[0];
    }
  }

  lemma ArriveKeepsPath(users: set<string>, sh: Shared, c: Client, raw: string, eff: Effect)
    requires PathOk(c) && StepArrive(users, sh, c, raw) == Some(eff)
    ensures PathOk(eff.me)
  {
    if c.pc.Login? {
      LoginPcOk(users, raw);
    } else if Decode(raw).Ok? {
      RequestPcOk(Decode(raw).value);
    }
  }

  lemma PopFrontKeepsPath(sh: Shared, c: Client, eff: Effect)
    requires PathOk(c) && StepPopFront(sh, c) == Some(eff)
    requires c.queue.items != [] && IsUpdate(c.queue.items[0])
    ensures PathOk(eff.me)
  {
  }

  lemma ServeKeepsPath(sh: Shared, t: Tid, c: Client, order: seq<Tid>, eff: Effect)
    requires PathOk(c) && c.pc.Inside? && c.pc.job.Serve? && StepServe(sh, t, c, order) == Some(eff)
    ensures PathOk(eff.me)
  {
  }

  lemma EnrollKeepsPath(sh: Shared, t: Tid, c: Client, eff: Effect)
    requires PathOk(c) && c.pc.Inside? && !c.pc.job.Serve? && StepEnroll(sh, t, c) == Some(eff)
    ensures PathOk(eff.me)
  {
  }

  lemma PcMoveKeepsPath(c: Client, me: Client)
    requires PathOk(c) && PcMoves(c.pc, me.pc) && me == c.(pc := me.pc, queue := me.queue)
    ensures PathOk(me)
  {
  }

  lemma MoveKeepsPath(s: Sys, e: Event)
    requires Can(s, e) && !e.Accept? && PathOk(s.clients[e.t])
    requires !e.Send? && !e.Arrive? && !e.PopFront? && !e.Proceed? && !e.Display?
    ensures PathOk(EffectOf(s, e).value.me)
  {
    PcMovesOn(s, e);
    var eff := EffectOf(s, e).value;
    PcMoveKeepsPath(s.clients[e.t], eff.me);
  }

  lemma ReadKeepsPath(c: Client, me: Client)
    requires PathOk(c) && LinkOk(c.link) && !Blocked(c.link.bytes) && me == c.(link := ReadFrame(c.link))
    ensures PathOk(me)
  {
    ReadKeeps(c.link);
  }

  lemma ProceedKeepsPath(s: Sys, e: Event, eff: Effect)
    requires e.Proceed? && e.t in s.clients && EffectOf(s, e) == Some(eff) && PathOk(s.clients[e.t])
    ensures PathOk(eff.me)
  {
    if s.clients[e.t].pc.job.Serve? {
      ServeKeepsPath(s.shared, e.t, s.clients[e.t], e.order, eff);
    } else {
      EnrollKeepsPath(s.shared, e.t, s.clients[e.t], eff);
    }
  }

  lemma PathKept(s: Sys, e: Event)
    requires Can(s, e) && LinkOk(Own(s, e).link) && MessageOk(Own(s, e).pc) && PathOk(Own(s, e))
    requires e.PopFront? && Own(s, e).pc.Popping? ==> Own(s, e).queue.items != [] && IsUpdate(Own(s, e).queue.items[0])
    ensures PathOk(EffectOf(s, e).value.me)
  {
    var eff := EffectOf(s, e).value;
    if e.Accept? {
      FreshOk();
    } else if e.Send? {
      SendKeepsPath(s.shared, s.clients[e.t], e.upto, eff);
    } else if e.Arrive? {
      ArriveKeepsPath(s.users, s.shared, s.clients[e.t], e.raw, eff);
    } else if e.PopFront? {
      PopFrontKeepsPath(s.shared, s.clients[e.t], eff);
    } else if e.Display? {
      ReadKeepsPath(s.clients[e.t], eff.me);
    } else if e.Proceed? {
      ProceedKeepsPath(s, e, eff);
    } else {
      MoveKeepsPath(s, e);
    }
  }

  lemma ClientKept(s: Sys, e: Event)
    requires Can(s, e) && ClientOk(Own(s, e))
    requires e.PopFront? && Own(s, e).pc.Popping? ==>
             Own(s, e).queue.items != [] && Deliverable(Own(s, e).queue.items[0])
    ensures ClientOk(EffectOf(s, e).value.me)
  {
    LinkKept(s, e);
    MessageKept(s, e);
    PathKept(s, e);
  }

  ghost predicate Linked(s: Sys) {
    forall c | c in s.clients :: ClientOk(s.clients[c])
  }

  lemma QueuedDeliverable(s: Sys, c: Tid)
    requires Synchronized(s) && Recorded(s) && Flowing(s) && c in s.clients && s.clients[c].pc.Popping?
    ensures s.clients[c].queue.items != [] && Deliverable(s.clients[c].queue.items[0])
  {
    assert Enrolled(s.clients[c].pc);
    var feed, items, owed := s.clients[c].feed, s.clients[c].queue.items, Owed(s, c);
    var present := c in s.shared.displays;
    assert FeedOk(feed, s.shared.log, present, items, owed);
    assert |items| >= Unpopped(s.clients[c].pc);
    var m := items[0];
    assert Given(feed, items, owed)[|feed.taken|] == m;
    DueDeliverable(feed, s.shared.log, present, |feed.taken|);
  }

  lemma DueDeliverable(feed: Feed, log: seq<Message>, present: bool, i: nat)
    requires feed.start <= |log| && (present || feed.start <= feed.stop <= |log|)
    requires i < |Due(feed, log, present)|
    requires forall m | m in feed.snapshot :: Deliverable(m)
    requires forall m | m in log :: Deliverable(m)
    ensures Deliverable(Due(feed, log, present)[i])
  {
    if i < |feed.snapshot| {
      assert feed.snapshot[i] in feed.snapshot;
    } else {
      assert Due(feed, log, present)[i] == log[feed.start + i - |feed.snapshot|];
    }
  }

  lemma OwnLinked(s: Sys, e: Event)
    requires Synchronized(s) && Recorded(s) && Flowing(s) && Linked(s) && Can(s, e)
    ensures ClientOk(EffectOf(s, e).value.me)
  {
    if e.Accept? {
      FreshOk();
    }
    if e.PopFront? && Own(s, e).pc.Popping? {
      QueuedDeliverable(s, e.t);
    }
    ClientKept(s, e);
  }

  lemma LinkedKept(s: Sys, e: Event, s': Sys)
    requires Synchronized(s) && Recorded(s) && Flowing(s) && Linked(s) && Step(s, e) == Some(s')
    ensures Linked(s')
  {
    StepVia(s, e, s');
    OwnLinked(s, e);
    LinkedByParts(s, e, EffectOf(s, e).value, s');
  }

  lemma LinkedByParts(s: Sys, e: Event, eff: Effect, s': Sys)
    requires Linked(s) && Via(s, e, eff, s') && ClientOk(eff.me)
    ensures Linked(s')
  {
    forall c | c in s'.clients
      ensures ClientOk(s'.clients[c])
    {
      ClientMoved(s, e, eff, s', c);
    }
  }

  lemma ClientMoved(s: Sys, e: Event, eff: Effect, s': Sys, c: Tid)
    requires Via(s, e, eff, s') && ClientOk(eff.me) && c in s'.clients
    requires c != e.t ==> c in s.clients && ClientOk(s.clients[c])
    ensures ClientOk(s'.clients[c])
  {
    SameButQueue(if c == e.t then eff.me else s.clients[c], s'.clients[c]);
  }

  lemma SameButQueue(a: Client, b: Client)
    requires ClientOk(a) && b == a.(queue := b.queue)
    ensures ClientOk(b)
  {
  }
}
