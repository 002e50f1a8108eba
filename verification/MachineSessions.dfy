/** One session: who may change the orders, how requests are answered, and what the answers mean. */
module MachineSessions {
  import opened Wrappers
  import opened Model
  import opened Wire
  import opened ServerSpec
  import opened Protocol
  import opened Machine
  import opened MachineLocks
  import opened MachineLog
  import opened MachineFlow
  import opened MachineLinks

  /** The requests served, of those that connection t made. */
  function MadeBy(served: seq<Request>, actors: seq<Tid>, t: Tid): seq<Request>
    requires |served| == |actors|
  {
    if served == [] then []
    else
      var n := |served| - 1;
      MadeBy(served[..n], actors[..n], t) + if actors[n] == t then [served[n]] else []
  }

  lemma MadeBySnoc(served: seq<Request>, actors: seq<Tid>, r: Request, a: Tid, t: Tid)
    requires |served| == |actors|
    ensures MadeBy(served + [r], actors + [a], t) == MadeBy(served, actors, t) + if a == t then [r] else []
  {
    assert (served + [r])[..|served|] == served && (actors + [a])[..|actors|] == actors;
  }

  /** The request that has been accepted and has not been answered. */
  function Underway(pc: Pc): seq<Request> {
    if pc.Inside? && pc.job.Serve? && pc.stage != Begin then [pc.job.request] else []
  }

  predicate Serving(pc: Pc) {
    (pc.Want? && pc.job.Serve?) || (pc.Inside? && pc.job.Serve?)
  }

  /** At most one request is unanswered, and only between its arrival and its answer. */
  predicate TalkOk(talk: Talk, pc: Pc) {
    && talk.answered <= |talk.asked| <= talk.answered + 1
    && (|talk.asked| > talk.answered ==> pc.Answer? || Serving(pc))
    && (Serving(pc) ==> |talk.asked| > talk.answered && React(talk.asked[|talk.asked| - 1]) == Call(pc.job.request))
    && (talk.mode != UPDATER ==> talk.asked == [] && talk.finished == [])
    && Calls(talk.asked) == talk.finished + Current(pc)
  }

  /** The call of a server method that is not over. */
  function Current(pc: Pc): seq<Request> {
    if Serving(pc) then [pc.job.request] else []
  }

  ghost predicate SessionOk(sh: Shared, t: Tid, talk: Talk, pc: Pc) {
    && TalkOk(talk, pc)
    && |sh.served| == |sh.actors|
    && MadeBy(sh.served, sh.actors, t) == talk.finished + Underway(pc)
  }

  ghost predicate Answered(s: Sys) {
    && |s.shared.served| == |s.shared.actors|
    && (forall t | t in s.clients :: SessionOk(s.shared, t, s.clients[t].talk, s.clients[t].pc))
    && (forall t | t !in s.clients :: MadeBy(s.shared.served, s.shared.actors, t) == [])
  }

  /** How a step changes the acting thread's conversation. */
  lemma TalkMoves(s: Sys, e: Event)
    requires Can(s, e) && TalkOk(Own(s, e).talk, Own(s, e).pc) && ModeOk(Own(s, e).talk.mode, Own(s, e).pc)
    ensures TalkOk(EffectOf(s, e).value.me.talk, EffectOf(s, e).value.me.pc)
  {
    var eff := EffectOf(s, e).value;
    if e.Accept? {
    } else if e.Arrive? {
      ArriveTalks(s.users, s.shared, s.clients[e.t], e.raw, eff);
    } else if e.Send? {
      SendTalks(s.shared, s.clients[e.t], e.upto, eff);
    } else if e.Proceed? {
      ProceedTalks(s, e, eff);
    } else if e.PopFront? {
      PopFrontTalks(s.shared, s.clients[e.t], eff);
    } else if e.Display? {
      assert eff.me.talk == s.clients[e.t].talk && eff.me.pc == s.clients[e.t].pc;
    } else {
      PcMovesOn(s, e);
      PcMoveTalks(s.clients[e.t], eff.me);
    }
  }

  lemma PcMoveTalks(c: Client, me: Client)
    requires TalkOk(c.talk, c.pc) && PcMoves(c.pc, me.pc) && me == c.(pc := me.pc, queue := me.queue)
    ensures TalkOk(me.talk, me.pc)
  {
  }

  lemma PopFrontTalks(sh: Shared, c: Client, eff: Effect)
    requires StepPopFront(sh, c) == Some(eff) && TalkOk(c.talk, c.pc)
    ensures TalkOk(eff.me.talk, eff.me.pc)
  {
  }

  lemma SendTalks(sh: Shared, c: Client, upto: nat, eff: Effect)
    requires StepSend(sh, c, upto) == Some(eff) && TalkOk(c.talk, c.pc)
    ensures TalkOk(eff.me.talk, eff.me.pc)
  {
  }

  lemma ProceedTalks(s: Sys, e: Event, eff: Effect)
    requires e.Proceed? && e.t in s.clients && EffectOf(s, e) == Some(eff)
    requires TalkOk(s.clients[e.t].talk, s.clients[e.t].pc) && ModeOk(s.clients[e.t].talk.mode, s.clients[e.t].pc)
    ensures TalkOk(eff.me.talk, eff.me.pc)
  {
    var c := s.clients[e.t];
    if c.pc.job.Serve? {
      ServeTalks(s.shared, e.t, c, e.order, eff);
    } else {
      EnrollTalks(s.shared, e.t, c, eff);
    }
  }

  lemma ServeTalks(sh: Shared, t: Tid, c: Client, order: seq<Tid>, eff: Effect)
    requires c.pc.Inside? && c.pc.job.Serve? && StepServe(sh, t, c, order) == Some(eff)
    requires TalkOk(c.talk, c.pc) && ModeOk(c.talk.mode, c.pc)
    ensures TalkOk(eff.me.talk, eff.me.pc)
  {
    NothingLeft(c.talk.finished + [c.pc.job.request]);
  }

  lemma EnrollTalks(sh: Shared, t: Tid, c: Client, eff: Effect)
    requires c.pc.Inside? && !c.pc.job.Serve? && StepEnroll(sh, t, c) == Some(eff) && TalkOk(c.talk, c.pc)
    ensures TalkOk(eff.me.talk, eff.me.pc)
  {
  }

  lemma NothingLeft<T>(a: seq<T>)
    ensures a + [] == a
  {
  }

  lemma ArriveTalks(users: set<string>, sh: Shared, c: Client, raw: string, eff: Effect)
    requires StepArrive(users, sh, c, raw) == Some(eff) && TalkOk(c.talk, c.pc) && ModeOk(c.talk.mode, c.pc)
    ensures TalkOk(eff.me.talk, eff.me.pc)
  {
    if c.pc.Idle? && Decode(raw).Ok? {
      CallsSnoc(c.talk.asked, Decode(raw).value);
    }
  }

  /** How a step moves the served requests and the answers to the acting thread. */
  ghost predicate AnswersMoved(sh: Shared, t: Tid, c: Client, eff: Effect) {
    var me, sh' := eff.me, eff.shared;
    || (sh'.served == sh.served && sh'.actors == sh.actors
       && me.talk.finished + Underway(me.pc) == c.talk.finished + Underway(c.pc))
    || (exists r :: sh'.served == sh.served + [r] && sh'.actors == sh.actors + [t]
                    && me.talk.finished + Underway(me.pc) == c.talk.finished + Underway(c.pc) + [r])
  }

  /** A request counts as served when its call begins, whether it is accepted or refused. */
  lemma ServedMoves(s: Sys, e: Event)
    requires Can(s, e)
    ensures AnswersMoved(s.shared, e.t, Own(s, e), EffectOf(s, e).value)
  {
    if e.Proceed? && Own(s, e).pc.Inside? && Own(s, e).pc.job.Serve? {
      ServeMoves(s.shared, e.t, s.clients[e.t], e.order, EffectOf(s, e).value);
    } else {
      OthersKeepData(s, e);
      OthersFinishNothing(s, e);
    }
  }

  lemma ServeMoves(sh: Shared, t: Tid, c: Client, order: seq<Tid>, eff: Effect)
    requires c.pc.Inside? && c.pc.job.Serve? && StepServe(sh, t, c, order) == Some(eff)
    ensures AnswersMoved(sh, t, c, eff)
  {
    var r := c.pc.job.request;
    if c.pc.stage == Begin {
      assert eff.shared.served == sh.served + [r] && eff.shared.actors == sh.actors + [t];
      assert eff.me.talk.finished + Underway(eff.me.pc) == c.talk.finished + Underway(c.pc) + [r];
    }
  }

  lemma OthersFinishNothing(s: Sys, e: Event)
    requires Can(s, e) && !(e.Proceed? && Own(s, e).pc.Inside? && Own(s, e).pc.job.Serve?)
    ensures EffectOf(s, e).value.me.talk.finished == Own(s, e).talk.finished
  {
  }

  lemma MadeKept(sh: Shared, actor: Tid, c: Client, eff: Effect, t: Tid, answers: seq<Request>)
    requires |sh.served| == |sh.actors| && AnswersMoved(sh, actor, c, eff)
    requires MadeBy(sh.served, sh.actors, t) == answers
    requires t == actor ==> answers == c.talk.finished + Underway(c.pc)
    ensures |eff.shared.served| == |eff.shared.actors|
    ensures MadeBy(eff.shared.served, eff.shared.actors, t) ==
            if t == actor then eff.me.talk.finished + Underway(eff.me.pc) else answers
  {
    if eff.shared.served != sh.served {
      var r :| eff.shared.served == sh.served + [r] && eff.shared.actors == sh.actors + [actor]
              && eff.me.talk.finished + Underway(eff.me.pc) == c.talk.finished + Underway(c.pc) + [r];
      MadeBySnoc(sh.served, sh.actors, r, actor, t);
    }
  }

  lemma AnsweredKept(s: Sys, e: Event, s': Sys)
    requires Synchronized(s) && Linked(s) && Answered(s) && Step(s, e) == Some(s')
    ensures Answered(s')
  {
    StepVia(s, e, s');
    ServedMoves(s, e);
    if e.Accept? {
      FreshOk();
    }
    TalkMoves(s, e);
    AnsweredByParts(s, e, EffectOf(s, e).value, s');
  }

  lemma AnsweredByParts(s: Sys, e: Event, eff: Effect, s': Sys)
    requires Answered(s) && Via(s, e, eff, s')
    requires AnswersMoved(s.shared, e.t, Own(s, e), eff) && TalkOk(eff.me.talk, eff.me.pc)
    ensures Answered(s')
  {
    forall t
      ensures |s'.shared.served| == |s'.shared.actors|
      ensures t in s'.clients ==> SessionOk(s'.shared, t, s'.clients[t].talk, s'.clients[t].pc)
      ensures t !in s'.clients ==> MadeBy(s'.shared.served, s'.shared.actors, t) == []
    {
      SessionKept(s, e, eff, s', t);
    }
  }

  lemma SessionKept(s: Sys, e: Event, eff: Effect, s': Sys, t: Tid)
    requires Answered(s) && Via(s, e, eff, s')
    requires AnswersMoved(s.shared, e.t, Own(s, e), eff) && TalkOk(eff.me.talk, eff.me.pc)
    ensures |s'.shared.served| == |s'.shared.actors|
    ensures if t in s'.clients then SessionOk(s'.shared, t, s'.clients[t].talk, s'.clients[t].pc)
            else MadeBy(s'.shared.served, s'.shared.actors, t) == []
  {
    if t == e.t {
      OwnSession(s, e, eff, s');
    } else if t in s.clients {
      assert SessionOk(s.shared, t, s.clients[t].talk, s.clients[t].pc);
      OtherSession(s, e, eff, s', t);
    } else {
      MadeKept(s.shared, e.t, Own(s, e), eff, t, []);
    }
  }

  lemma OwnSession(s: Sys, e: Event, eff: Effect, s': Sys)
    requires Answered(s) && Via(s, e, eff, s')
    requires AnswersMoved(s.shared, e.t, Own(s, e), eff) && TalkOk(eff.me.talk, eff.me.pc)
    ensures SessionOk(s'.shared, e.t, s'.clients[e.t].talk, s'.clients[e.t].pc)
  {
    var c := Own(s, e);
    assert e.t in s.clients ==> SessionOk(s.shared, e.t, c.talk, c.pc);
    MadeKept(s.shared, e.t, c, eff, e.t, c.talk.finished + Underway(c.pc));
  }

  lemma OtherSession(s: Sys, e: Event, eff: Effect, s': Sys, t: Tid)
    requires Via(s, e, eff, s') && AnswersMoved(s.shared, e.t, Own(s, e), eff)
    requires t in s.clients && t != e.t && SessionOk(s.shared, t, s.clients[t].talk, s.clients[t].pc)
    ensures SessionOk(s'.shared, t, s'.clients[t].talk, s'.clients[t].pc)
  {
    assert s'.clients[t] == s.clients[t].(queue := s'.clients[t].queue);
    MadeKept(s.shared, e.t, Own(s, e), eff, t, s.clients[t].talk.finished + Underway(s.clients[t].pc));
  }

  /** The same orders, id counter, broadcasts and registrations. */
  predicate SameData(a: Shared, b: Shared) {
    b.server == a.server && b.displays == a.displays && b.log == a.log && b.fault == a.fault
  }

  /** An ERROR answer leaves the stored orders, the id counter, the log, the registered displays
      and every queue as they were. */
  lemma ErrorChangesNothing(s: Sys, e: Event, s': Sys)
    requires Synchronized(s) && Step(s, e) == Some(s') && e.t in s.clients
    requires !s.clients[e.t].pc.Answer? && s'.clients[e.t].pc.Answer? && s'.clients[e.t].pc.reply.kind == ERROR
    ensures SameData(s.shared, s'.shared)
    ensures forall c | c in s.clients :: s'.clients[c].queue == s.clients[c].queue
  {
    StepVia(s, e, s');
    ErrorEffect(s, e);
  }

  lemma ErrorEffect(s: Sys, e: Event)
    requires Can(s, e) && !Own(s, e).pc.Answer?
    requires EffectOf(s, e).value.me.pc.Answer? && EffectOf(s, e).value.me.pc.reply.kind == ERROR
    ensures var eff := EffectOf(s, e).value;
            SameData(s.shared, eff.shared) && eff.queue.None? && eff.me.queue == Own(s, e).queue
  {
  }
}
