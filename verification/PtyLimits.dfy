/**
 Where the PTY protocol falls short: a concrete run for each side condition of
 the theorems, showing that it cannot be dropped.
 */
module PtyLimits {
  import opened Text
  import opened Conversations
  import opened PtyModel
  import opened PtyInvariants
  import opened PtyTheorems

  /** Shows the whole screen; ready at once; one snapshot makes the screen stable. */
  const PLAIN := Config(1, (before, screen) => screen, None, None, screen => true, true, true)

  const HELLO := [Part("hello", "", false)]
  const HI := [Part("hi", "", false)]

  lemma Then(s0: State, es: seq<Event>, s: State, e: Event) returns (es': seq<Event>, s': State)
    requires Run(s0, es) == Some(s) && Enabled(s, e)
    ensures es' == es + [e] && s' == Step(s, e) && Run(s0, es') == Some(s')
  {
    es', s' := es + [e], Step(s, e);
    RunSnoc(s0, es, s, e);
  }

  lemma Shown(parts: seq<Part>)
    requires parts == HELLO || parts == HI
    ensures ShownText(parts) == parts[0].content
    ensures Trim(ShownText(parts), IsWhiteSpaceChar) == ShownText(parts) != ""
  {
    assert ShownText(parts) == parts[0].Shown() + ShownText([]);
  }

  function TheMail(queue: seq<Outbound>, signal: bool, sending: bool, loop: Loop): Mail {
    Mail(queue, signal, sending, loop, Free, false, 0, [], [])
  }

  // ------------------------------------------------------------ spare signal

  const QUEUED := Outbound(HELLO, None)

  function Started(screens: seq<string>, mail: Mail): State {
    State(PLAIN, Chat(screens, [Message(0, "a", Agent, 2)], "", false, false, true),
          Boot(HELLO, true, true, Failed, 1), mail)
  }

  lemma FirstLook()
    ensures Observe(Init(PLAIN, HELLO, 1), "a", 2) ==
            Started(["a"], TheMail([], false, false, Idle)).(boot := Init(PLAIN, HELLO, 1).boot)
  {
    assert WithAgentText(Init(PLAIN, HELLO, 1).chat.messages, "a", 2) == [Message(0, "a", Agent, 2)];
  }

  lemma FirstTick()
    ensures Enabled(Init(PLAIN, HELLO, 1), Tick("a", 2, Missing))
    ensures Step(Init(PLAIN, HELLO, 1), Tick("a", 2, Missing)) == Started(["a"], TheMail([QUEUED], true, true, Idle))
  {
    FirstLook();
    assert [] + [QUEUED] == [QUEUED];
  }

  lemma SecondTick()
    ensures var s := Started(["a"], TheMail([QUEUED], false, true, GotSignal));
            Enabled(s, Tick("a", 3, Missing)) && !Harmless(s, Tick("a", 3, Missing))
            && Step(s, Tick("a", 3, Missing)) == Started(["a", "a"], TheMail([QUEUED], true, true, GotSignal))
  {
    assert ["a"] + ["a"] == ["a", "a"];
  }

  function Failing(signal: bool, sending: bool, loop: Loop): State {
    Started(["a", "a"], TheMail([], signal, sending, loop))
  }

  lemma TakeQueued()
    ensures var s := Started(["a", "a"], TheMail([QUEUED], true, true, GotSignal));
            Enabled(s, RecvMessage) && Step(s, RecvMessage) == Failing(true, true, Taken(QUEUED))
  {
    assert [QUEUED][1..] == [];
  }

  lemma BeginAndFail()
    ensures var s := Failing(true, true, Taken(QUEUED));
            Enabled(s, BeginWrite("a", 3)) && Enabled(Step(s, BeginWrite("a", 3)), FinishError)
            && Step(Step(s, BeginWrite("a", 3)), FinishError) == Failing(true, true, Returned(QUEUED, false))
  {
    var s := Failing(true, true, Taken(QUEUED));
    assert Update(s.cfg, s.boot.load, s.chat, "a", 3) == s.chat;
  }

  /** The rest of the failed flight of the prompt, which leaves the spare signal in place. */
  lemma FailedFlight(s0: State, es: seq<Event>) returns (es': seq<Event>)
    requires Run(s0, es) == Some(Started(["a", "a"], TheMail([QUEUED], true, true, GotSignal)))
    ensures es <= es' && Run(s0, es') == Some(Failing(true, false, Idle))
  {
    var s;
    TakeQueued();
    es', s := Then(s0, es, Started(["a", "a"], TheMail([QUEUED], true, true, GotSignal)), RecvMessage);
    BeginAndFail();
    es', s := Then(s0, es', s, BeginWrite("a", 3));
    es', s := Then(s0, es', s, FinishError);
    es' := Unwind(s0, es');
  }

  lemma Unwind(s0: State, es: seq<Event>) returns (es': seq<Event>)
    requires Run(s0, es) == Some(Failing(true, true, Returned(QUEUED, false)))
    ensures es <= es' && Run(s0, es') == Some(Failing(true, false, Idle))
  {
    var s;
    es', s := Then(s0, es, Failing(true, true, Returned(QUEUED, false)), ClearFlag);
    es', s := Then(s0, es', Failing(true, false, Cleared(QUEUED, false)), Reply);
    assert s.mail.answers == [] && s.mail.loop == Idle;
  }

  lemma PushStep(s: State)
    requires s.mail.caller.Checked? && s.mail.caller.parts == HI && s.mail.queue == []
    ensures Enabled(s, Push)
    ensures Step(s, Push) == s.(mail := s.mail.(queue := [Outbound(HI, Some(s.mail.tickets))],
                                                tickets := s.mail.tickets + 1, caller := Waiting))
  {
    assert [] + [Outbound(HI, Some(s.mail.tickets))] == [Outbound(HI, Some(s.mail.tickets))];
  }

  /** A caller that finds the status stable queues its message and waits. */
  lemma SendAndPush(s0: State, es: seq<Event>, s: State) returns (es': seq<Event>)
    requires Run(s0, es) == Some(s)
    requires StatusOf(s) == Stable && s.mail.caller.Free? && s.mail.queue == []
    ensures es <= es'
    ensures Run(s0, es') == Some(s.(mail := s.mail.(queue := [Outbound(HI, Some(s.mail.tickets))],
                                                    tickets := s.mail.tickets + 1, caller := Waiting)))
  {
    CheckPasses(s);
    var t;
    es', t := Then(s0, es, s, Send(HI));
    PushStep(s.(mail := s.mail.(caller := Checked(HI))));
    es', t := Then(s0, es', s.(mail := s.mail.(caller := Checked(HI))), Push);
  }

  lemma CheckPasses(s: State)
    requires StatusOf(s) == Stable && s.mail.caller.Free?
    ensures Enabled(s, Send(HI)) && Step(s, Send(HI)) == s.(mail := s.mail.(caller := Checked(HI)))
  {
    Shown(HI);
  }

  lemma Receive(s0: State, es: seq<Event>, s: State) returns (es': seq<Event>)
    requires Run(s0, es) == Some(s)
    requires s.mail.loop.Idle? && s.mail.signal && |s.mail.queue| == 1
    ensures es <= es'
    ensures Run(s0, es') == Some(s.(mail := s.mail.(queue := [], signal := false, loop := Taken(s.mail.queue[0]))))
  {
    var t;
    es', t := Then(s0, es, s, RecvSignal);
    es', t := Then(s0, es', s.(mail := s.mail.(signal := false, loop := GotSignal)), RecvMessage);
    assert s.mail.queue[1..] == [];
  }

  lemma {:induction false} HarmlessBegins(s0: State, begin: seq<Event>, es: seq<Event>)
    requires begin <= es && HarmlessRun(s0, es)
    ensures HarmlessRun(s0, begin)
  {
    if begin != es {
      HarmlessBegins(s0, begin, es[..|es| - 1]);
    }
  }

  /**
   A tick between the two receives that finds the screen stable leaves a spare
   signal behind: the next message is taken unflagged, and the status reads
   stable while it is in the send loop's hands.
   */
  lemma SpareSignalHidesMessage() returns (es: seq<Event>)
    ensures !HarmlessRun(Init(PLAIN, HELLO, 1), es)
    ensures var r := Run(Init(PLAIN, HELLO, 1), es);
            r.Some? && r.value.mail.loop.Taken? && StatusOf(r.value) == Stable
  {
    var s0 := Init(PLAIN, HELLO, 1);
    var s;
    FirstTick();
    es, s := Then(s0, [], s0, Tick("a", 2, Missing));
    es, s := Then(s0, es, Started(["a"], TheMail([QUEUED], true, true, Idle)), RecvSignal);
    SecondTick();
    var start := es;
    es, s := Then(s0, es, Started(["a"], TheMail([QUEUED], false, true, GotSignal)), Tick("a", 3, Missing));
    var noisy := es;
    es := FailedFlight(s0, es);
    s := Failing(true, false, Idle);
    es := SendAndPush(s0, es, s);
    s := s.(mail := s.mail.(queue := [Outbound(HI, Some(0))], tickets := 1, caller := Waiting));
    es := Receive(s0, es, s);
    assert noisy[..|noisy| - 1] == start;
    if HarmlessRun(s0, es) {
      HarmlessBegins(s0, noisy, es);
    }
  }

  // --------------------------------------------------------------- late send

  /** A Send that passed its check before the loop exits, and queues after the final drain, waits for ever. */
  lemma LateSendHangs() returns (es: seq<Event>)
    ensures Run(Init(PLAIN, [], 1), es).Some?
    ensures forall more :: Run(Init(PLAIN, [], 1), es + more).Some? ==>
              var m := Run(Init(PLAIN, [], 1), es + more).value.mail; m.tickets >= 1 && m.answers == []
  {
    var s0 := Init(PLAIN, [], 1);
    es := ExitEarly();
    ExitedLooksStable();
    es := SendAndPush(s0, es, EXITED);
    InitSafe(PLAIN, [], 1);
    RunKeepsSafe(s0, es);
    forall more | Run(s0, es + more).Some?
      ensures var m := Run(s0, es + more).value.mail; m.tickets >= 1 && m.answers == []
    {
      RunConcat(s0, es, more);
      ExitIsFinal(Run(s0, es).value, more);
      TicketsStay(Run(s0, es).value, more);
    }
  }

  const STARTED := State(PLAIN, Chat(["a"], [Message(0, "a", Agent, 2)], "", false, false, true),
                         Boot([], true, false, Failed, 0), TheMail([], false, false, Idle))

  lemma FirstLookWithoutPrompt()
    ensures Observe(Init(PLAIN, [], 1), "a", 2) == STARTED.(boot := Init(PLAIN, [], 1).boot)
  {
    assert WithAgentText(Init(PLAIN, [], 1).chat.messages, "a", 2) == [Message(0, "a", Agent, 2)];
  }

  lemma FirstTickWithoutPrompt()
    ensures Enabled(Init(PLAIN, [], 1), Tick("a", 2, Missing))
    ensures Step(Init(PLAIN, [], 1), Tick("a", 2, Missing)) == STARTED
  {
    FirstLookWithoutPrompt();
  }

  const EXITED := STARTED.(mail := TheMail([], false, false, Exited).(cancelled := true))

  lemma ExitedLooksStable()
    ensures StatusOf(EXITED) == Stable
  {
    assert Snapshots(PLAIN, EXITED.chat) == ["a"];
  }

  lemma ExitEarly() returns (es: seq<Event>)
    ensures Run(Init(PLAIN, [], 1), es) == Some(EXITED)
  {
    var s0 := Init(PLAIN, [], 1);
    var s;
    FirstTickWithoutPrompt();
    es, s := Then(s0, [], s0, Tick("a", 2, Missing));
    es, s := Then(s0, es, STARTED, Cancel);
    es, s := Then(s0, es, STARTED.(mail := STARTED.mail.(cancelled := true)), Exit);
    es, s := Then(s0, es, STARTED.(mail := STARTED.mail.(cancelled := true, loop := Draining)), EndDrain);
  }

  lemma StepKeepsTicketCount(s: State, e: Event)
    requires Safe(s) && Enabled(s, e)
    ensures Step(s, e).mail.tickets >= s.mail.tickets
  {
    if e.Tick? {
      TickMail(s, e.screen, e.time, e.file);
    }
  }

  lemma {:induction false} TicketsStay(s: State, es: seq<Event>)
    requires Safe(s) && Run(s, es).Some?
    ensures Run(s, es).value.mail.tickets >= s.mail.tickets
  {
    if es != [] {
      RunPrefix(s, es);
      TicketsStay(s, es[..|es| - 1]);
      RunKeepsSafe(s, es[..|es| - 1]);
      StepKeepsTicketCount(Run(s, es[..|es| - 1]).value, es[|es| - 1]);
    }
  }

  // ------------------------------------------------------- unclean restoring

  const ASKED := [Message(0, "hi", User, 1)]

  lemma RestoringTick() returns (s: State)
    ensures Enabled(Init(PLAIN, HELLO, 1), Tick("", 2, Saved(Record(1, ASKED, "", false))))
    ensures s == Step(Init(PLAIN, HELLO, 1), Tick("", 2, Saved(Record(1, ASKED, "", false))))
    ensures s.cfg == PLAIN && s.chat == Chat([""], ASKED, "", false, false, true)
    ensures s.mail == TheMail([QUEUED], true, true, Idle)
  {
    s := Step(Init(PLAIN, HELLO, 1), Tick("", 2, Saved(Record(1, ASKED, "", false))));
    assert [] + [QUEUED] == [QUEUED];
  }

  /** A restored history that ends in a user message, with a prompt to send and a blank screen. */
  lemma RestoredUserMessageDoubled() returns (es: seq<Event>)
    ensures var r := Run(Init(PLAIN, HELLO, 1), es);
            r.Some? && !NoEqualNeighbours(r.value.chat.messages)
  {
    var s0 := Init(PLAIN, HELLO, 1);
    var s := RestoringTick();
    var t;
    es, t := Then(s0, [], s0, Tick("", 2, Saved(Record(1, ASKED, "", false))));
    es := Receive(s0, es, s);
    s := s.(mail := TheMail([], false, true, Taken(QUEUED)));
    assert LastOf(ASKED, Agent) == LastOf(ASKED[..0], Agent) == ZERO_MESSAGE;
    assert Update(s.cfg, s.boot.load, s.chat, "", 3) == s.chat;
    es, t := Then(s0, es, s, BeginWrite("", 3));
    s := s.(chat := s.chat.(writing := true), mail := TheMail([], false, true, Writing(QUEUED, "", 3)));
    es, t := Then(s0, es, s, FinishOk);
    assert t.chat.messages[0].role == t.chat.messages[1].role;
  }
}
