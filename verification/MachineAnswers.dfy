/** Message by message: what each reply that an updater has been sent is the answer to. */
module MachineAnswers {
  import opened Model
  import opened ServerSpec
  import opened Protocol
  import opened ProtocolLaws
  import opened Machine
  import opened MachineSessions
  import opened MachineReplies
  import opened MachineRuns

  /** The place in the run of the request that is number j among those of connection t. */
  lemma {:induction false} OutcomeAt(served: seq<Request>, actors: seq<Tid>, t: Tid, j: nat) returns (p: nat)
    requires |served| == |actors| && j < |Outcomes(served, actors, t)|
    ensures p < |served| && actors[p] == t && |MadeBy(served[..p], actors[..p], t)| == j
    ensures |MadeBy(served, actors, t)| == |Outcomes(served, actors, t)| && MadeBy(served, actors, t)[j] == served[p]
    ensures Outcomes(served, actors, t)[j] == ReplyTo(Run(INITIAL, served[..p]), served[p])
  {
    var n := |served| - 1;
    OutcomesOfMade(served, actors, t);
    OutcomesOfMade(served[..n], actors[..n], t);
    if j < |Outcomes(served[..n], actors[..n], t)| {
      p := OutcomeAt(served[..n], actors[..n], t, j);
      assert served[..n][..p] == served[..p] && actors[..n][..p] == actors[..p];
    } else {
      p := n;
    }
  }

  /** There is one settled result for each call among the messages that are answered. */
  lemma HeardAndSettled(talk: Talk, pc: Pc, all: seq<Message>)
    requires TalkOk(talk, pc) && |all| == |talk.finished| + |Underway(pc)|
    ensures |Settled(all, pc)| == |Calls(Heard(talk.asked, pc))| && Settled(all, pc) <= all
    ensures Heard(talk.asked, pc) <= talk.asked && Calls(Heard(talk.asked, pc)) == talk.finished
  {
    if Serving(pc) {
      var init := talk.asked[..|talk.asked| - 1];
      assert Calls(talk.asked) == Calls(init) + [pc.job.request];
      SameBut(Calls(init), talk.finished, pc.job.request);
    } else {
      assert talk.finished + [] == talk.finished;
    }
  }

  lemma SameBut<T>(a: seq<T>, b: seq<T>, x: T)
    requires a + [x] == b + [x]
    ensures a == b
  {
    assert a == (a + [x])[..|a|] && b == (b + [x])[..|b|];
  }

  lemma SentIsScript(link: Link, pc: Pc, asked: seq<Message>, all: seq<Message>, i: nat)
    requires SentAsDue(link, pc, asked, all) && i + 1 < |link.sent|
    ensures i < |Answers(Heard(asked, pc), Settled(all, pc))|
    ensures link.sent[i + 1] == Answers(Heard(asked, pc), Settled(all, pc))[i]
  {
    var script := Script(asked, all, pc);
    assert link.sent <= script by {
      if !link.broken {
        assert link.sent + Pending(pc) == script;
      }
    }
    assert link.sent[i + 1] == script[i + 1];
  }

  /** Whatever is stored, the message is answered like this and changes nothing. */
  ghost predicate AtOnce(s: State, m: Message, reply: Message) {
    Turns(s, m, s, reply, m.kind != QUIT)
  }

  /** What answers message m, asked after the messages in `before`: if it needs a call, the outcome of the
      request at place p of the run, which is the one of this connection that comes next. */
  ghost predicate AnsweredAt(served: seq<Request>, actors: seq<Tid>, t: Tid, before: seq<Message>, m: Message,
                             reply: Message, p: nat)
    requires |served| == |actors|
  {
    if React(m).Call? then
      && p < |served| && actors[p] == t && React(m) == Call(served[p])
      && |MadeBy(served[..p], actors[..p], t)| == |Calls(before)|
      && Turns(Run(INITIAL, served[..p]), m, Run(INITIAL, served[..p + 1]), reply, true)
    else forall s :: AtOnce(s, m, reply)
  }

  lemma RunNext(served: seq<Request>, p: nat)
    requires p < |served|
    ensures Run(INITIAL, served[..p + 1]) == After(Run(INITIAL, served[..p]), served[p])
  {
    assert served[..p + 1][..p] == served[..p];
  }

  /** The outcome of the request that is number j of connection t. */
  lemma CallAnswered(served: seq<Request>, actors: seq<Tid>, t: Tid, m: Message, j: nat) returns (p: nat)
    requires |served| == |actors| && j < |Outcomes(served, actors, t)| == |MadeBy(served, actors, t)|
    requires React(m) == Call(MadeBy(served, actors, t)[j])
    ensures p < |served| && actors[p] == t && React(m) == Call(served[p])
    ensures |MadeBy(served[..p], actors[..p], t)| == j
    ensures var reply := Outcomes(served, actors, t)[j];
            Turns(Run(INITIAL, served[..p]), m, Run(INITIAL, served[..p + 1]), reply, true)
  {
    p := OutcomeAt(served, actors, t, j);
    RunNext(served, p);
    var before, after := Run(INITIAL, served[..p]), Run(INITIAL, served[..p + 1]);
    ReactExactly(before, m, after, Outcomes(served, actors, t)[j], true);
  }

  lemma AnsweredAtOnce(m: Message)
    requires React(m).Reply?
    ensures forall s :: AtOnce(s, m, React(m).msg)
  {
    forall s
      ensures AtOnce(s, m, React(m).msg)
    {
      ReactExactly(s, m, s, React(m).msg, React(m).more);
    }
  }

  lemma AnswerAt(served: seq<Request>, actors: seq<Tid>, t: Tid, asked: seq<Message>, results: seq<Message>, i: nat)
    returns (p: nat)
    requires |served| == |actors| && i < |asked| && |results| == |Calls(asked)|
    requires Calls(asked) <= MadeBy(served, actors, t) && results <= Outcomes(served, actors, t)
    ensures |Answers(asked, results)| == |asked|
    ensures AnsweredAt(served, actors, t, asked[..i], asked[i], Answers(asked, results)[i], p)
  {
    OutcomesOfMade(served, actors, t);
    AnswersAt(asked, results, i);
    p := 0;
    if React(asked[i]).Call? {
      var j := |Calls(asked[..i])|;
      assert results[j] == Outcomes(served, actors, t)[j] && Calls(asked)[j] == MadeBy(served, actors, t)[j];
      p := CallAnswered(served, actors, t, asked[i], j);
    } else {
      AnsweredAtOnce(asked[i]);
    }
  }

  lemma TalkAnswered(served: seq<Request>, actors: seq<Tid>, t: Tid, talk: Talk, pc: Pc, i: nat) returns (p: nat)
    requires |served| == |actors| && TalkOk(talk, pc)
    requires MadeBy(served, actors, t) == talk.finished + Underway(pc)
    requires var all := Outcomes(served, actors, t); i < |Answers(Heard(talk.asked, pc), Settled(all, pc))|
    ensures i < |talk.asked|
    ensures var all := Outcomes(served, actors, t);
            var reply := Answers(Heard(talk.asked, pc), Settled(all, pc))[i];
            AnsweredAt(served, actors, t, talk.asked[..i], talk.asked[i], reply, p)
  {
    var all := Outcomes(served, actors, t);
    OutcomesOfMade(served, actors, t);
    HeardAndSettled(talk, pc, all);
    var heard, settled := Heard(talk.asked, pc), Settled(all, pc);
    AnswersCount(heard, settled);
    assert heard[..i] == talk.asked[..i] && heard[i] == talk.asked[i];
    p := AnswerAt(served, actors, t, heard, settled, i);
  }

  /** Every reply after the login response is the answer to its own message, and if that message needs the
      server, it tells what became of it at its place among all the requests: place p of the run. */
  lemma EveryReplyIsDue(s: Sys, t: Tid, i: nat) returns (p: nat)
    requires Reached(s) && t in s.clients && s.clients[t].talk.mode == UPDATER && i + 1 < |s.clients[t].link.sent|
    ensures |s.shared.served| == |s.shared.actors| && i < |s.clients[t].talk.asked|
    ensures Says(s.clients[t].link.sent[0], OK, "Login successful")
    ensures var asked, sent := s.clients[t].talk.asked, s.clients[t].link.sent;
            AnsweredAt(s.shared.served, s.shared.actors, t, asked[..i], asked[i], sent[i + 1], p)
  {
    var c, served, actors := s.clients[t], s.shared.served, s.shared.actors;
    SessionIsDue(s, t);
    SentIsScript(c.link, c.pc, c.talk.asked, Outcomes(served, actors, t), i);
    LoginComesFirst(c.link, c.pc, c.talk.asked, Outcomes(served, actors, t));
    p := TalkAnswered(served, actors, t, c.talk, c.pc, i);
  }

  lemma SessionIsDue(s: Sys, t: Tid)
    requires Reached(s) && t in s.clients && s.clients[t].talk.mode == UPDATER
    ensures |s.shared.served| == |s.shared.actors|
    ensures var c, served, actors := s.clients[t], s.shared.served, s.shared.actors;
            && TalkOk(c.talk, c.pc) && MadeBy(served, actors, t) == c.talk.finished + Underway(c.pc)
            && SentAsDue(c.link, c.pc, c.talk.asked, Outcomes(served, actors, t))
  {
    ReachedKeeps(s);
    assert SessionOk(s.shared, t, s.clients[t].talk, s.clients[t].pc);
  }

  lemma LoginComesFirst(link: Link, pc: Pc, asked: seq<Message>, all: seq<Message>)
    requires SentAsDue(link, pc, asked, all) && link.sent != []
    ensures Says(link.sent[0], OK, "Login successful")
  {
    if !link.broken {
      assert (link.sent + Pending(pc))[0] == link.sent[0];
    }
  }
}
