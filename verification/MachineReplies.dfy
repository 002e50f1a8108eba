/** The replies themselves: what an updater has been sent, message by message, against the messages
    that it sent and what the abstract server makes of its requests, each at its place in the run. */
module MachineReplies {
  import opened Wrappers
  import opened Model
  import opened Text
  import opened Wire
  import opened WireProofs
  import opened ServerSpec
  import opened ServerProofs
  import opened Protocol
  import opened Machine
  import opened MachineLocks
  import opened MachineLog
  import opened MachineFlow
  import opened MachineLinks
  import opened MachineSessions

  // ----- what the replies should be -----

  /** The replies due to connection t: for each of its requests, the one that it deserves in the state
      that the requests served before it, by any connection, lead to. */
  function Outcomes(served: seq<Request>, actors: seq<Tid>, t: Tid): seq<Message>
    requires |served| == |actors|
  {
    if served == [] then []
    else
      var n := |served| - 1;
      Outcomes(served[..n], actors[..n], t)
      + if actors[n] == t then [ReplyTo(Run(INITIAL, served[..n]), served[n])] else []
  }

  lemma OutcomesSnoc(served: seq<Request>, actors: seq<Tid>, r: Request, a: Tid, t: Tid)
    requires |served| == |actors|
    ensures Outcomes(served + [r], actors + [a], t) ==
            Outcomes(served, actors, t) + if a == t then [ReplyTo(Run(INITIAL, served), r)] else []
  {
    assert (served + [r])[..|served|] == served && (actors + [a])[..|actors|] == actors;
  }

  /** There is one for each request made. */
  lemma {:induction false} OutcomesOfMade(served: seq<Request>, actors: seq<Tid>, t: Tid)
    requires |served| == |actors|
    ensures |Outcomes(served, actors, t)| == |MadeBy(served, actors, t)|
  {
    if served != [] {
      var n := |served| - 1;
      OutcomesOfMade(served[..n], actors[..n], t);
    }
  }

  /** The reply about to be sent. */
  function Pending(pc: Pc): seq<Message> {
    if pc.Answer? then [pc.reply] else []
  }

  /** All but the last, while the request being served has its place in the run and no reply. */
  function Settled(all: seq<Message>, pc: Pc): seq<Message> {
    if Underway(pc) != [] && all != [] then all[..|all| - 1] else all
  }

  /** The messages that are answered, or about to be. */
  function Heard(asked: seq<Message>, pc: Pc): seq<Message> {
    if Serving(pc) && asked != [] then asked[..|asked| - 1] else asked
  }

  predicate AnswerShort(pc: Pc) {
    pc.Answer? ==> pc.reply.kind in {OK, ERROR} && |pc.reply.str| <= 60
  }

  /** The last outcome is that of the request being served. */
  ghost predicate ServesLast(all: seq<Message>, pc: Pc, next: int) {
    Underway(pc) != [] ==> all != [] && all[|all| - 1] == OkReply(pc.job.request, next)
  }

  ghost predicate AskedLast(asked: seq<Message>, pc: Pc) {
    Serving(pc) ==> asked != [] && React(asked[|asked| - 1]) == Call(pc.job.request)
  }

  /** The login response, and the answers to what was asked. */
  function Script(asked: seq<Message>, all: seq<Message>, pc: Pc): seq<Message> {
    [LOGIN_OK] + Answers(Heard(asked, pc), Settled(all, pc))
  }

  /** What was sent, with the reply about to be sent, is the script; a part of it once the
      connection has failed. */
  ghost predicate SentAsDue(link: Link, pc: Pc, asked: seq<Message>, all: seq<Message>) {
    if link.broken then link.sent <= Script(asked, all, pc)
    else link.sent + Pending(pc) == Script(asked, all, pc)
  }

  ghost predicate RepliesOk(c: Client, all: seq<Message>, next: int) {
    c.talk.mode == UPDATER ==>
      && AnswerShort(c.pc) && ServesLast(all, c.pc, next) && AskedLast(c.talk.asked, c.pc)
      && SentAsDue(c.link, c.pc, c.talk.asked, all)
  }

  ghost predicate Replied(s: Sys) {
    && |s.shared.served| == |s.shared.actors|
    && forall t | t in s.clients ::
         RepliesOk(s.clients[t], Outcomes(s.shared.served, s.shared.actors, t), Run(INITIAL, s.shared.served).next)
  }

  // ----- replies are short -----

  lemma ShortReplyFits(m: Message)
    requires Sendable(m) && m.kind in {OK, ERROR} && |m.str| <= 60
    ensures Fits(m)
  {
  }

  lemma OkReplyShort(r: Request, next: int)
    requires 1 <= next <= INT_MAX
    ensures OkReply(r, next).kind == OK && |OkReply(r, next).str| <= 60
  {
    IdDigits(next - 1);
  }

  lemma ErrorReplyShort(s: State, r: Request)
    requires Start(s, r).Err?
    ensures ErrorReply(Start(s, r).error).kind == ERROR && |ErrorReply(Start(s, r).error).str| <= 60
  {
  }

  lemma RefusalShort(m: Message)
    ensures React(m).Reply? ==> React(m).msg.kind in {OK, ERROR} && |React(m).msg.str| <= 60
  {
  }

  // ----- one step of the connection's own thread -----

  lemma NothingMore<T>(sent: seq<T>)
    ensures sent + [] == sent
  {
  }

  /** One more reply, said after the others. */
  lemma OneMoreReply(sent: seq<Message>, script: seq<Message>, broken: bool, reply: Message, script': seq<Message>)
    requires if broken then sent <= script else sent + [] == script
    requires script' == script + [reply]
    ensures if broken then sent <= script' else sent + [reply] == script'
  {
  }

  lemma ScriptMore(answers: seq<Message>, reply: Message)
    ensures [LOGIN_OK] + (answers + [reply]) == ([LOGIN_OK] + answers) + [reply]
  {
  }

  lemma LoginReplies(users: set<string>, sh: Shared, c: Client, raw: string, eff: Effect, all: seq<Message>, next: int)
    requires c.pc.Login? && StepArrive(users, sh, c, raw) == Some(eff)
    requires c.link.sent == [] && c.talk.asked == [] && all == []
    ensures RepliesOk(eff.me, all, next)
  {
    if eff.me.talk.mode == UPDATER {
      assert eff.me.pc == Answer(LOGIN_OK, Loop);
      assert [] + [LOGIN_OK] == [LOGIN_OK] + [];
    }
  }

  /** A message arrives: it is answered at once, or its request is to be served. */
  lemma RequestReplies(c: Client, m: Message, c': Client, all: seq<Message>, next: int)
    requires RepliesOk(c, all, next) && c.pc.Idle? && c.talk.mode == UPDATER
    requires c' == c.(pc := RequestPc(m), talk := c.talk.(asked := c.talk.asked + [m]))
    ensures RepliesOk(c', all, next)
  {
    var asked := c.talk.asked;
    if React(m).Reply? {
      RefusalShort(m);
      AnswersReply(asked, m, all);
      ScriptMore(Answers(asked, all), React(m).msg);
      OneMoreReply(c.link.sent, Script(asked, all, c.pc), c.link.broken, React(m).msg,
          Script(c'.talk.asked, all, c'.pc));
    } else {
      assert c'.talk.asked[..|asked|] == asked;
    }
  }

  /** An answer is sent, or the connection fails. */
  lemma SendReplies(sh: Shared, c: Client, upto: nat, eff: Effect, all: seq<Message>, next: int)
    requires RepliesOk(c, all, next) && LinkOk(c.link) && MessageOk(c.pc) && c.pc.Answer? && c.talk.mode == UPDATER
    requires c.pc.next != Enroll && StepSend(sh, c, upto) == Some(eff)
    ensures RepliesOk(eff.me, all, next)
  {
    TransmitKeeps(c.link, c.pc.reply, upto);
    ShortReplyFits(c.pc.reply);
    SentReplies(c, eff.me, all, next);
  }

  lemma SentReplies(c: Client, c': Client, all: seq<Message>, next: int)
    requires RepliesOk(c, all, next) && c.pc.Answer? && c.talk.mode == UPDATER
    requires c'.talk == c.talk.(answered := c'.talk.answered) && (c'.pc.Idle? || c'.pc.Gone?)
    requires c.link.broken ==> c'.link.broken
    requires || (c'.link.sent == c.link.sent + [c.pc.reply] && !c'.link.broken)
             || (c'.link.sent == c.link.sent && c'.link.broken)
    ensures RepliesOk(c', all, next)
  {
    NothingMore(c'.link.sent);
  }

  /** The first change of a request: it has its place in the run, and its reply is still to come. */
  lemma BeginReplies(c: Client, c': Client, all: seq<Message>, next: int, next': int)
    requires RepliesOk(c, all, next) && c.pc.Inside? && c.pc.job.Serve? && c.pc.stage == Begin
    requires c' == c.(pc := c'.pc) && c'.pc.Inside? && c'.pc.job == c.pc.job && c'.pc.stage == Between
    ensures RepliesOk(c', all + [OkReply(c.pc.job.request, next')], next')
  {
    var all' := all + [OkReply(c.pc.job.request, next')];
    assert all'[..|all|] == all;
  }

  /** The result of the last call follows the answers before it. */
  lemma ResultSaid(asked: seq<Message>, results: seq<Message>, result: Message)
    requires asked != [] && React(asked[|asked| - 1]).Call?
    ensures [LOGIN_OK] + Answers(asked, results + [result]) ==
            ([LOGIN_OK] + Answers(asked[..|asked| - 1], results)) + [result]
  {
    var init, m := asked[..|asked| - 1], asked[|asked| - 1];
    assert asked == init + [m];
    AnswersCall(init, m, results, result);
    ScriptMore(Answers(init, results), result);
  }

  /** The reply to the last call is about to be sent, after all the answers before it. */
  lemma ReplyReady(link: Link, asked: seq<Message>, results: seq<Message>, reply: Message)
    requires asked != [] && React(asked[|asked| - 1]).Call?
    requires var said := [LOGIN_OK] + Answers(asked[..|asked| - 1], results);
             if link.broken then link.sent <= said else link.sent + [] == said
    ensures SentAsDue(link, Answer(reply, Loop), asked, results + [reply])
  {
    var said := [LOGIN_OK] + Answers(asked[..|asked| - 1], results);
    ResultSaid(asked, results, reply);
    OneMoreReply(link.sent, said, link.broken, reply, said + [reply]);
    assert Script(asked, results + [reply], Answer(reply, Loop)) == said + [reply];
  }

  /** A request is refused: its reply is the error that it deserves. */
  lemma RefuseReplies(c: Client, c': Client, reply: Message, all: seq<Message>, next: int)
    requires RepliesOk(c, all, next) && c.pc.Inside? && c.pc.job.Serve? && c.pc.stage == Begin
    requires c' == c.(pc := Answer(reply, Loop), talk := c.talk.(finished := c'.talk.finished))
    requires reply.kind == ERROR && |reply.str| <= 60
    ensures RepliesOk(c', all + [reply], next)
  {
    if c.talk.mode == UPDATER {
      ReplyReady(c.link, c.talk.asked, all, reply);
    }
  }

  /** The end of the critical section: the reply about to be sent is the one deserved. */
  lemma EndReplies(c: Client, c': Client, all: seq<Message>, next: int)
    requires RepliesOk(c, all, next) && c.pc.Inside? && c.pc.job.Serve? && c.pc.stage == End && 1 <= next <= INT_MAX
    requires c' ==
             c.(pc := Answer(OkReply(c.pc.job.request, next), Loop), talk := c.talk.(finished := c'.talk.finished))
    ensures RepliesOk(c', all, next)
  {
    var reply := OkReply(c.pc.job.request, next);
    OkReplyShort(c.pc.job.request, next);
    if c.talk.mode == UPDATER {
      var before := all[..|all| - 1];
      assert all == before + [reply];
      ReplyReady(c.link, c.talk.asked, before, reply);
    }
  }

  /** At the end of its critical section, the id counter is the one after the request. */
  lemma EndNext(sh: Shared, r: Request)
    requires Linear(sh, Some((r, End)))
    ensures sh.server.next == Run(INITIAL, sh.served).next
    ensures 1 <= Run(INITIAL, sh.served).next <= INT_MAX
  {
    var init := sh.served[..|sh.served| - 1];
    EndOutcome(Run(INITIAL, init), r);
    InvOfRun(sh.served);
  }

  lemma ServeReplies(sh: Shared, t: Tid, c: Client, order: seq<Tid>, eff: Effect)
    requires |sh.served| == |sh.actors| && c.pc.Inside? && c.pc.job.Serve?
    requires Linear(sh, Progress(c.pc)) && StepServe(sh, t, c, order) == Some(eff)
    requires RepliesOk(c, Outcomes(sh.served, sh.actors, t), Run(INITIAL, sh.served).next)
    ensures |eff.shared.served| == |eff.shared.actors|
    ensures RepliesOk(eff.me, Outcomes(eff.shared.served, eff.shared.actors, t),
            Run(INITIAL, eff.shared.served).next)
  {
    var all, next := Outcomes(sh.served, sh.actors, t), Run(INITIAL, sh.served).next;
    match c.pc.stage {
      case Begin => StartReplies(sh, t, c, order, eff);
      case Between => BetweenReplies(c, eff.me, all, next);
      case End =>
        EndNext(sh, c.pc.job.request);
        EndReplies(c, eff.me, all, next);
    }
  }

  lemma BetweenReplies(c: Client, c': Client, all: seq<Message>, next: int)
    requires RepliesOk(c, all, next) && c.pc.Inside? && c.pc.job.Serve? && c.pc.stage == Between
    requires c' == c.(pc := c'.pc) && c'.pc.Inside? && c'.pc.job == c.pc.job && c'.pc.stage == End
    ensures RepliesOk(c', all, next)
  {
  }

  /** What a request deserves, when its call begins. */
  lemma DeservedAtStart(s: State, served: seq<Request>, r: Request)
    requires s == Run(INITIAL, served)
    ensures Start(s, r).Err? ==> ReplyTo(s, r) == ErrorReply(Start(s, r).error) && Run(INITIAL, served + [r]) == s
    ensures Start(s, r).Ok? ==> ReplyTo(s, r) == OkReply(r, Run(INITIAL, served + [r]).next)
  {
    assert (served + [r])[..|served|] == served;
  }

  lemma StartReplies(sh: Shared, t: Tid, c: Client, order: seq<Tid>, eff: Effect)
    requires |sh.served| == |sh.actors| && c.pc.Inside? && c.pc.job.Serve? && c.pc.stage == Begin
    requires sh.server == Run(INITIAL, sh.served) && StepServe(sh, t, c, order) == Some(eff)
    requires RepliesOk(c, Outcomes(sh.served, sh.actors, t), Run(INITIAL, sh.served).next)
    ensures |eff.shared.served| == |eff.shared.actors|
    ensures RepliesOk(eff.me, Outcomes(eff.shared.served, eff.shared.actors, t), Run(INITIAL, eff.shared.served).next)
  {
    var r := c.pc.job.request;
    var all, next := Outcomes(sh.served, sh.actors, t), Run(INITIAL, sh.served).next;
    OutcomesSnoc(sh.served, sh.actors, r, t, t);
    DeservedAtStart(sh.server, sh.served, r);
    if Start(sh.server, r).Err? {
      ErrorReplyShort(sh.server, r);
      RefuseReplies(c, eff.me, ErrorReply(Start(sh.server, r).error), all, next);
    } else {
      BeginReplies(c, eff.me, all, next, Run(INITIAL, sh.served + [r]).next);
    }
  }

  /** The other steps say nothing and leave what is due as it is. */
  predicate Silent(c: Client, c': Client) {
    && c'.talk == c.talk && c'.link.sent == c.link.sent && c'.link.broken == c.link.broken
    && Pending(c'.pc) == Pending(c.pc) && Underway(c'.pc) == Underway(c.pc)
    && (Current(c'.pc) == Current(c.pc) || c'.talk.mode != UPDATER)
  }

  lemma SilentStep(s: Sys, e: Event)
    requires Can(s, e) && !e.Accept? && !e.Arrive? && !(e.Send? && Own(s, e).pc.Answer?)
    requires !(e.Proceed? && Own(s, e).pc.Inside? && Own(s, e).pc.job.Serve?) && !e.ArriveError?
    requires LinkOk(Own(s, e).link) && ModeOk(Own(s, e).talk.mode, Own(s, e).pc)
    ensures var eff := EffectOf(s, e).value;
            (eff.me.talk.mode == UPDATER ==> Silent(s.clients[e.t], eff.me))
            && eff.me.talk.mode == s.clients[e.t].talk.mode
            && eff.shared.served == s.shared.served && eff.shared.actors == s.shared.actors
  {
    if e.Display? {
      ReadKeeps(s.clients[e.t].link);
    } else if PushEvent(e) {
      PushIsSilent(s, e, s.clients[e.t], EffectOf(s, e).value);
    }
  }

  lemma PushIsSilent(s: Sys, e: Event, c: Client, eff: Effect)
    requires PushEvent(e) && StepPush(s, e, c) == Some(eff)
    ensures Silent(c, eff.me) && eff.shared.served == s.shared.served && eff.shared.actors == s.shared.actors
  {
  }

  lemma SilentReplies(c: Client, c': Client, all: seq<Message>, next: int)
    requires RepliesOk(c, all, next) && c'.talk.mode == c.talk.mode && (c'.talk.mode == UPDATER ==> Silent(c, c'))
    ensures RepliesOk(c', all, next)
  {
  }

  /** The connection is closed while its thread waits for the peer. */
  lemma CloseReplies(c: Client, c': Client, all: seq<Message>, next: int)
    requires RepliesOk(c, all, next) && (c.pc.Login? || c.pc.Idle?) && c' == c.(pc := Gone)
    ensures RepliesOk(c', all, next)
  {
  }

  lemma ArriveReplies(s: Sys, e: Event, eff: Effect, all: seq<Message>, next: int)
    requires e.Arrive? && e.t in s.clients && StepArrive(s.users, s.shared, s.clients[e.t], e.raw) == Some(eff)
    requires var c := s.clients[e.t];
             && RepliesOk(c, all, next) && ModeOk(c.talk.mode, c.pc)
             && (c.pc.Login? ==> c.link.sent == [] && c.talk.asked == [] && all == [])
    ensures RepliesOk(eff.me, all, next)
  {
    var c := s.clients[e.t];
    if c.pc.Login? {
      LoginReplies(s.users, s.shared, c, e.raw, eff, all, next);
    } else if Decode(e.raw).Err? {
      CloseReplies(c, eff.me, all, next);
    } else {
      RequestReplies(c, Decode(e.raw).value, eff.me, all, next);
    }
  }

  // ----- every connection -----

  /** What the invariants say about the acting client. */
  ghost predicate Acting(s: Sys, c: Client, t: Tid) {
    && LinkOk(c.link) && MessageOk(c.pc) && ModeOk(c.talk.mode, c.pc)
    && |s.shared.served| == |s.shared.actors|
    && (c.pc.Login? ==> c.link.sent == [] && c.talk.asked == [] && Outcomes(s.shared.served, s.shared.actors, t) == [])
    && RepliesOk(c, Outcomes(s.shared.served, s.shared.actors, t), Run(INITIAL, s.shared.served).next)
    && (c.pc.Inside? && c.pc.job.Serve? ==> Linear(s.shared, Progress(c.pc)))
    && (c.talk.mode == UPDATER && c.pc.Answer? ==> c.pc.next != Enroll)
  }

  lemma ActingOk(s: Sys, t: Tid)
    requires Synchronized(s) && Recorded(s) && Linked(s) && Answered(s) && Replied(s) && t in s.clients
    ensures Acting(s, s.clients[t], t)
  {
    assert ClientOk(s.clients[t]);
    assert SessionOk(s.shared, t, s.clients[t].talk, s.clients[t].pc);
    OutcomesOfMade(s.shared.served, s.shared.actors, t);
  }

  lemma OwnReplies(s: Sys, e: Event, eff: Effect)
    requires Can(s, e) && !e.Accept? && EffectOf(s, e) == Some(eff) && Acting(s, s.clients[e.t], e.t)
    ensures |eff.shared.served| == |eff.shared.actors|
    ensures RepliesOk(eff.me, Outcomes(eff.shared.served, eff.shared.actors, e.t),
            Run(INITIAL, eff.shared.served).next)
  {
    var c := s.clients[e.t];
    var all, next := Outcomes(s.shared.served, s.shared.actors, e.t), Run(INITIAL, s.shared.served).next;
    if e.Arrive? {
      ArriveReplies(s, e, eff, all, next);
    } else if e.ArriveError? {
      CloseReplies(c, eff.me, all, next);
    } else if e.Send? && c.pc.Answer? {
      AnswerReplies(s.shared, c, e.upto, eff, all, next);
    } else if e.Proceed? && c.pc.Inside? && c.pc.job.Serve? {
      ServeReplies(s.shared, e.t, c, e.order, eff);
    } else {
      SilentStep(s, e);
      SilentReplies(c, eff.me, all, next);
    }
  }

  lemma AnswerReplies(sh: Shared, c: Client, upto: nat, eff: Effect, all: seq<Message>, next: int)
    requires c.pc.Answer? && StepSend(sh, c, upto) == Some(eff) && LinkOk(c.link) && MessageOk(c.pc)
    requires RepliesOk(c, all, next) && (c.talk.mode == UPDATER ==> c.pc.next != Enroll)
    ensures eff.shared == sh && RepliesOk(eff.me, all, next)
  {
    if c.talk.mode == UPDATER {
      SendReplies(sh, c, upto, eff, all, next);
    }
  }

  /** Another connection's replies: a request that takes effect meanwhile is not one of its own. */
  lemma OthersReplies(c: Client, all: seq<Message>, next: int, next': int)
    requires RepliesOk(c, all, next) && (Underway(c.pc) == [] || next' == next)
    ensures RepliesOk(c, all, next')
  {
  }

  lemma FreshReplies(all: seq<Message>, next: int)
    ensures RepliesOk(FRESH, all, next)
  {
  }

  lemma OutcomesMoved(sh: Shared, sh': Shared, actor: Tid, t: Tid)
    requires |sh.served| == |sh.actors| && t != actor
    requires || (sh'.served == sh.served && sh'.actors == sh.actors)
             || (exists r :: sh'.served == sh.served + [r] && sh'.actors == sh.actors + [actor])
    ensures |sh'.served| == |sh'.actors|
    ensures Outcomes(sh'.served, sh'.actors, t) == Outcomes(sh.served, sh.actors, t)
  {
    if sh'.served != sh.served {
      var r :| sh'.served == sh.served + [r] && sh'.actors == sh.actors + [actor];
      OutcomesSnoc(sh.served, sh.actors, r, actor, t);
    }
  }

  lemma OtherKept(s: Sys, e: Event, eff: Effect, s': Sys, t: Tid)
    requires Synchronized(s) && Replied(s) && Via(s, e, eff, s') && AnswersMoved(s.shared, e.t, Own(s, e), eff)
    requires t in s.clients && t != e.t && (eff.shared.served != s.shared.served ==> Own(s, e).pc.Inside?)
    ensures |s'.shared.served| == |s'.shared.actors|
    ensures RepliesOk(s'.clients[t], Outcomes(s'.shared.served, s'.shared.actors, t),
            Run(INITIAL, s'.shared.served).next)
  {
    OutcomesMoved(s.shared, s'.shared, e.t, t);
    var c := s.clients[t];
    assert s'.clients[t] == c.(queue := s'.clients[t].queue);
    OthersReplies(c, Outcomes(s.shared.served, s.shared.actors, t), Run(INITIAL, s.shared.served).next,
                  Run(INITIAL, s'.shared.served).next);
  }

  lemma ServedInside(s: Sys, e: Event)
    requires Can(s, e)
    ensures EffectOf(s, e).value.shared.served != s.shared.served ==> Own(s, e).pc.Inside?
  {
  }

  lemma RepliedKept(s: Sys, e: Event, s': Sys)
    requires Synchronized(s) && Recorded(s) && Linked(s) && Answered(s) && Replied(s) && Step(s, e) == Some(s')
    ensures Replied(s')
  {
    StepVia(s, e, s');
    ServedMoves(s, e);
    ServedInside(s, e);
    var eff := EffectOf(s, e).value;
    if e.Accept? {
      FreshReplies(Outcomes(s.shared.served, s.shared.actors, e.t), Run(INITIAL, s.shared.served).next);
    } else {
      ActingOk(s, e.t);
      OwnReplies(s, e, eff);
    }
    RepliedByParts(s, e, eff, s');
  }

  lemma RepliedByParts(s: Sys, e: Event, eff: Effect, s': Sys)
    requires Synchronized(s) && Replied(s) && Via(s, e, eff, s') && AnswersMoved(s.shared, e.t, Own(s, e), eff)
    requires eff.shared.served != s.shared.served ==> Own(s, e).pc.Inside?
    requires |eff.shared.served| == |eff.shared.actors|
    requires RepliesOk(eff.me, Outcomes(eff.shared.served, eff.shared.actors, e.t),
             Run(INITIAL, eff.shared.served).next)
    ensures Replied(s')
  {
    forall t | t in s'.clients
      ensures RepliesOk(s'.clients[t], Outcomes(s'.shared.served, s'.shared.actors, t),
              Run(INITIAL, s'.shared.served).next)
    {
      if t != e.t {
        OtherKept(s, e, eff, s', t);
      }
    }
  }
}
