/** The running system as a state machine: one thread per connection, one server mutex, a mutex,
    a semaphore and a deque per message queue, the byte stream to each peer, and the display
    program at its far end. A step is one statement that another thread can observe. */
module Machine {
  import opened Wrappers
  import opened Model
  import opened Text
  import opened Wire
  import opened Framing
  import opened ServerSpec
  import opened Protocol

  /** A connection: its Client object and the thread that runs Client::chat. */
  type Tid = nat

  // ----- state -----

  /** MessageQueue: m_queue, the holder of m_mutex, and the value of m_avail. */
  datatype Queue = Queue(items: seq<Message>, holder: Option<Tid>, avail: nat)

  /** The display program: waiting for the login response, in its main loop, or ended by an error. */
  datatype Screen = LoggingIn | Running(view: Orders) | Stopped

  /** The connection towards the peer: the bytes it has not read yet, of which `tail` belong to a
      frame that broke off; and, as history, the messages sent completely and how many were read. */
  datatype Link = Link(bytes: string, tail: string, broken: bool, sent: seq<Message>, read: nat, screen: Screen)

  /** History of a registration: where in the log it began and ended, the messages of its
      snapshot, and the messages taken out of its queue. */
  datatype Feed = Feed(joined: bool, start: nat, stop: nat, snapshot: seq<Message>, taken: seq<Message>)

  /** m_mode; and, as history, the messages decoded in updater_loop, how many of them were answered, and
      the calls of server methods that are over. */
  datatype Talk = Talk(mode: ClientMode, asked: seq<Message>, answered: nat, finished: seq<Request>)

  /** What a thread does under the server mutex. */
  datatype Job = Serve(request: Request) | Join | Leave

  /** Before its first change, between its two changes, after its last. */
  datatype Stage = Begin | Between | End

  /** A call of Client::enqueue still to be made. */
  datatype Push = Push(to: Tid, msg: Message)

  /** Inside MessageQueue::enqueue: outside it, holding the queue mutex, with the message pushed,
      with the mutex released. */
  datatype PushPc = Ready | Locked | Filled(to: Tid) | Unlocked(to: Tid)

  /** Where a thread goes after an answer: the updater loop, the display loop, the end. */
  datatype Next = Loop | Enroll | Quit

  datatype Pc =
    | Login                                                          // chat, in IO::receive
    | Idle                                                           // updater_loop, in IO::receive
    | Answer(reply: Message, next: Next)                             // about to send a reply
    | Want(job: Job)                                                 // blocked on the server mutex
    | Inside(job: Job, stage: Stage, owed: seq<Push>, push: PushPc)  // holding the server mutex
    | Waiting                                                        // display_loop, in sem_timedwait
    | Permitted                                                      // blocked on its own queue mutex
    | Popping                                                        // holding it
    | Popped(msg: Message)                                           // holding it, after pop_front
    | Sending(msg: Message)                                          // display_loop, about to send
    | Gone                                                           // the Client object is deleted

  datatype Client = Client(pc: Pc, queue: Queue, feed: Feed, link: Link, talk: Talk)

  /** The server's data, the holder of m_mutex and m_display_clients. `log`, `served` and
      `actors` are history: the broadcasts, the requests served, refused ones too, and who made them.
      `fault` records undefined behaviour: front() of an empty deque, or a push into the queue
      of a deleted Client. */
  datatype Shared = Shared(
    server: State,
    lock: Option<Tid>,
    displays: set<Tid>,
    log: seq<Message>,
    served: seq<Request>,
    actors: seq<Tid>,
    fault: bool)

  /** The whole system, with all connections ever made. */
  datatype Sys = Sys(users: set<string>, shared: Shared, clients: map<Tid, Client>)

  function Init(users: set<string>): Sys {
    Sys(users, Shared(INITIAL, None, {}, [], [], [], false), map[])
  }

  const FRESH := Client(
    Login,
    Queue([], None, 0),
    Feed(false, 0, 0, [], []),
    Link("", "", false, [], 0, LoggingIn),
    Talk(ClientMode.INVALID, [], 0, []))

  // ----- where messages lead -----

  /** Client::chat on the first frame. */
  function LoginPc(users: set<string>, raw: string): Pc {
    match Greet(users, raw)
    case HangUp => Gone
    case Deny(reply) => Answer(reply, Quit)
    case Admit(mode) => Answer(LOGIN_OK, if mode == DISPLAY then Enroll else Loop)
  }

  /** Client::updater_loop on one decoded message. */
  function RequestPc(m: Message): Pc {
    match React(m)
    case Reply(msg, more) => Answer(msg, if more then Loop else Quit)
    case Call(r) => Want(Serve(r))
  }

  // ----- broadcasts -----

  /** An iteration order of the unordered set of display clients. */
  predicate Enumerates(order: seq<Tid>, displays: set<Tid>) {
    && (forall i | 0 <= i < |order| :: order[i] in displays)
    && (forall c | c in displays :: c in order)
    && (forall i, j | 0 <= i < j < |order| :: order[i] != order[j])
  }

  /** Server::broadcast. */
  function Broadcast(order: seq<Tid>, msg: Message): seq<Push> {
    seq(|order|, i requires 0 <= i < |order| => Push(order[i], msg))
  }

  function PushAll(to: Tid, msgs: seq<Message>): seq<Push> {
    seq(|msgs|, i requires 0 <= i < |msgs| => Push(to, msgs[i]))
  }

  // ----- sending and showing -----

  /** Client::send_message: the link after it and what it returns. The connection takes all the
      bytes, or breaks after `upto` of them. */
  function Transmit(link: Link, m: Message, upto: nat): Option<(Link, bool)> {
    var text := Encode(m);
    if text.Err? || Frame(text.value).Err? || link.broken then Some((link, false))
    else
      var frame := Frame(text.value).value;
      if upto > |frame| then None
      else if upto == |frame| then Some((link.(bytes := link.bytes + frame, sent := link.sent + [m]), true))
      else Some((link.(bytes := link.bytes + frame[..upto], tail := frame[..upto], broken := true), false))
  }

  /** The display program on one decoded message. */
  function ScreenStep(screen: Screen, m: Message): Screen {
    match screen
    case LoggingIn => if m.kind == OK then Running(map[]) else Stopped
    case Running(view) =>
      var shown := Show(view, m);
      if shown.Ok? then Running(shown.value) else Stopped
    case Stopped => Stopped
  }

  /** The display program reads one frame. */
  function ReadFrame(link: Link): Link
    requires !Blocked(link.bytes)
  {
    var r := Receive(link.bytes);
    var screen :=
      if r.result.Err? || Decode(r.result.value).Err? then Stopped
      else ScreenStep(link.screen, Decode(r.result.value).value);
    link.(bytes := r.rest, read := link.read + 1, screen := screen)
  }

  // ----- steps -----

  datatype Event =
    | Accept(t: Tid)
    | Arrive(t: Tid, raw: string)           // IO::receive returns
    | ArriveError(t: Tid)                   // IO::receive throws
    | Lock(t: Tid)                          // pthread_mutex_lock(&server.m_mutex) returns
    | Proceed(t: Tid, order: seq<Tid>)      // the next statements under the server mutex
    | PushLock(t: Tid) | PushBack(t: Tid) | PushUnlock(t: Tid) | PushPost(t: Tid)
    | Take(t: Tid) | Timeout(t: Tid)        // sem_timedwait returns
    | PopLock(t: Tid) | PopFront(t: Tid) | PopUnlock(t: Tid)
    | Send(t: Tid, upto: nat)               // send_message
    | Display(t: Tid)                       // the display program handles a frame

  /** What a step changes: the thread's own client, perhaps one message queue, the shared state. */
  datatype Effect = Effect(me: Client, queue: Option<(Tid, Queue)>, shared: Shared)

  function Mine(sh: Shared, me: Client): Option<Effect> {
    Some(Effect(me, None, sh))
  }

  /** The state after an event; None if the event cannot happen. */
  ghost function Step(s: Sys, e: Event): Option<Sys> {
    if e.t in s.clients <==> e.Accept? then None
    else
      match EffectOf(s, e)
      case None => None
      case Some(eff) => Some(Sys(s.users, eff.shared, WithQueue(s.clients[e.t := eff.me], eff.queue)))
  }

  function WithQueue(clients: map<Tid, Client>, update: Option<(Tid, Queue)>): map<Tid, Client> {
    match update
    case None => clients
    case Some((c, queue)) => if c in clients then clients[c := clients[c].(queue := queue)] else clients
  }

  ghost function EffectOf(s: Sys, e: Event): Option<Effect>
    requires e.Accept? || e.t in s.clients
  {
    var sh := s.shared;
    if e.Accept? then Mine(sh, FRESH)
    else
      var c := s.clients[e.t];
      match e
      case Arrive(t, raw) => StepArrive(s.users, sh, c, raw)
      case ArriveError(t) => if c.pc.Login? || c.pc.Idle? then Mine(sh, c.(pc := Gone)) else None
      case Lock(t) =>
        if c.pc.Want?
            && sh.lock.None? then Mine(sh.(lock := Some(t)), c.(pc := Inside(c.pc.job, Begin, [], Ready))) else None
      case Proceed(t, order) =>
        if !c.pc.Inside? || c.pc.owed != [] || c.pc.push != Ready then None
        else if c.pc.job.Serve? then StepServe(sh, t, c, order) else StepEnroll(sh, t, c)
      case PushLock(_) | PushBack(_) | PushUnlock(_) | PushPost(_) => StepPush(s, e, c)
      case Take(t) =>
        if c.pc.Waiting? && c.queue.avail > 0 then
          Mine(sh, c.(pc := Permitted, queue := c.queue.(avail := c.queue.avail - 1)))
        else None
      case Timeout(t) => if c.pc.Waiting? then Mine(sh, c.(pc := Sending(HEARTBEAT))) else None
      case PopLock(t) =>
        if c.pc.Permitted?
            && c.queue.holder.None? then Mine(sh, c.(pc := Popping, queue := c.queue.(holder := Some(t)))) else None
      case PopFront(t) => StepPopFront(sh, c)
      case PopUnlock(t) =>
        if c.pc.Popped? then Mine(sh, c.(pc := Sending(c.pc.msg), queue := c.queue.(holder := None))) else None
      case Send(t, upto) => StepSend(sh, c, upto)
      case Display(t) =>
        if Blocked(c.link.bytes) || c.link.screen.Stopped? then None else Mine(sh, c.(link := ReadFrame(c.link)))
  }

  function StepArrive(users: set<string>, sh: Shared, c: Client, raw: string): Option<Effect> {
    match c.pc
    case Login =>
      var pc := LoginPc(users, raw);
      var mode := if pc.Answer? && pc.next == Enroll then DISPLAY
        else if pc.Answer? && pc.next == Loop then UPDATER
        else ClientMode.INVALID;
      Mine(sh, c.(pc := pc, talk := c.talk.(mode := mode)))
    case Idle =>
      if Decode(raw).Err? then Mine(sh, c.(pc := Gone))
      else Mine(sh,
          c.(pc := RequestPc(Decode(raw).value), talk := c.talk.(asked := c.talk.asked + [Decode(raw).value])))
    case _ => None
  }

  /** process_new_order, process_item_update, process_order_update. */
  function StepServe(sh: Shared, t: Tid, c: Client, order: seq<Tid>): Option<Effect>
    requires c.pc.Inside? && c.pc.job.Serve?
  {
    var r := c.pc.job.request;
    match c.pc.stage
    case Begin =>
      var change := Start(sh.server, r);
      if change.Err? then
        Mine(sh.(lock := None, served := sh.served + [r], actors := sh.actors + [t]),
             c.(pc := Answer(ErrorReply(change.error), Loop), talk := c.talk.(finished := c.talk.finished + [r])))
      else if !Enumerates(order, sh.displays) || (r.NewOrder? && sh.server.next >= INT_MAX) then None
      else
        Mine(sh.(server := change.value.state, log := sh.log + [change.value.msg],
                 served := sh.served + [r], actors := sh.actors + [t]),
             c.(pc := c.pc.(stage := Between, owed := Broadcast(order, change.value.msg))))
    case Between =>
      var change := Follow(sh.server, r);
      if change.None? then Mine(sh, c.(pc := c.pc.(stage := End)))
      else if !Enumerates(order, sh.displays) then None
      else
        Mine(sh.(server := change.value.state, log := sh.log + [change.value.msg]),
             c.(pc := c.pc.(stage := End, owed := Broadcast(order, change.value.msg))))
    case End =>
      Mine(sh.(server := Finish(sh.server, r), lock := None),
           c.(pc := Answer(OkReply(r, sh.server.next), Loop), talk := c.talk.(finished := c.talk.finished + [r])))
  }

  /** register_display and unregister_display. */
  ghost function StepEnroll(sh: Shared, t: Tid, c: Client): Option<Effect>
    requires c.pc.Inside? && !c.pc.job.Serve?
  {
    if c.pc.stage != Begin then
      Mine(sh.(lock := None), c.(pc := if c.pc.job.Join? then Waiting else Gone))
    else if c.pc.job.Join? then
      var msgs := Snapshot(sh.server.orders);
      Mine(sh.(displays := sh.displays + {t}),
           c.(pc := c.pc.(stage := End, owed := PushAll(t, msgs)), feed := Feed(true, |sh.log|, 0, msgs, [])))
    else
      Mine(sh.(displays := sh.displays - {t}), c.(pc := c.pc.(stage := End), feed := c.feed.(stop := |sh.log|)))
  }

  /** MessageQueue::enqueue, statement by statement. */
  function StepPush(s: Sys, e: Event, c: Client): Option<Effect>
    requires e.PushLock? || e.PushBack? || e.PushUnlock? || e.PushPost?
  {
    var pc := c.pc;
    if !pc.Inside? then None
    else if pc.push == Ready then
      if !e.PushLock? || pc.owed == [] then None
      else
        var to := pc.owed[0].to;
        if to !in s.clients || s.clients[to].pc.Gone? then Some(Effect(c, None, s.shared.(fault := true)))
        else if s.clients[to].queue.holder.Some? then None
        else Some(Effect(c.(pc := pc.(push := Locked)), Some((to, s.clients[to].queue.(holder := Some(e.t)))),
            s.shared))
    else if pc.push == Locked then
      if !e.PushBack? || pc.owed == [] || pc.owed[0].to !in s.clients then None
      else
        var to, queue := pc.owed[0].to, s.clients[pc.owed[0].to].queue;
        Some(Effect(c.(pc := pc.(owed := pc.owed[1..], push := Filled(to))),
                    Some((to, queue.(items := queue.items + [pc.owed[0].msg]))), s.shared))
    else
      var to := pc.push.to;
      if to !in s.clients then None
      else if e.PushUnlock? && pc.push.Filled? then
        Some(Effect(c.(pc := pc.(push := Unlocked(to))), Some((to, s.clients[to].queue.(holder := None))), s.shared))
      else if e.PushPost? && pc.push.Unlocked? then
        Some(Effect(c.(pc := pc.(push := Ready)),
            Some((to, s.clients[to].queue.(avail := s.clients[to].queue.avail + 1))), s.shared))
      else None
  }

  /** front() and pop_front(). */
  function StepPopFront(sh: Shared, c: Client): Option<Effect> {
    if !c.pc.Popping? then None
    else if c.queue.items == [] then Mine(sh.(fault := true), c)
    else
      var msg := c.queue.items[0];
      Mine(sh, c.(pc := Popped(msg), queue := c.queue.(items := c.queue.items[1..]),
          feed := c.feed.(taken := c.feed.taken + [msg])))
  }

  function StepSend(sh: Shared, c: Client, upto: nat): Option<Effect> {
    if !c.pc.Sending? && !c.pc.Answer? then None
    else
      var sent := Transmit(c.link, if c.pc.Sending? then c.pc.msg else c.pc.reply, upto);
      if sent.None? then None
      else
        var (link, ok) := sent.value;
        var pc :=
          if c.pc.Sending? then (if ok then Waiting else Want(Leave))
          else match c.pc.next case Loop => Idle case Enroll => Want(Join) case Quit => Gone;
        var talk := if c.pc.Answer?
            && |c.talk.asked| > c.talk.answered then c.talk.(answered := c.talk.answered + 1) else c.talk;
        Mine(sh, c.(pc := pc, link := link, talk := talk))
  }

  /** The state after a sequence of events, if all of them can happen in turn. */
  ghost function Exec(s: Sys, es: seq<Event>): Option<Sys> {
    if es == [] then Some(s)
    else
      var before := Exec(s, es[..|es| - 1]);
      if before.None? then None else Step(before.value, es[|es| - 1])
  }
}
