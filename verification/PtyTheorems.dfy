/**
 The promises of the PTY conversation, for every run from a fresh start.
 */
module PtyTheorems {
  import opened Text
  import opened Conversations
  import opened PtyModel
  import opened PtyInvariants

  // ---------------------------------------------------------- composing runs

  lemma {:induction false} RunConcat(s: State, a: seq<Event>, b: seq<Event>)
    ensures Run(s, a + b) == if Run(s, a).None? then None else Run(Run(s, a).value, b)
  {
    if b == [] {
      assert a + b == a;
    } else {
      var n := |b| - 1;
      RunConcat(s, a, b[..n]);
      assert (a + b)[..|a + b| - 1] == a + b[..n];
    }
  }

  // -------------------------------------------------- one message in flight

  /**
   While the send loop lives, a pending signal means one queued message and the
   flag set, and the flag is set exactly while a message is signalled, received
   or being sent.  From queueing to the return of its send a message shows in
   the status.
   */
  ghost predicate OneInFlight(s: State) {
    var m := s.mail;
    && (m.loop.Live() && m.signal ==> |m.queue| == 1 && m.sending)
    && (m.loop.Live() ==> (m.sending <==> m.signal || m.loop.GotSignal? || m.loop.Sending()))
    && (m.loop.GotSignal? ==> m.queue != [])
    && (m.loop.Sending() ==> m.queue == [])
    && (m.queue != [] || m.loop.GotSignal? || m.loop.Sending() ==> StatusOf(s) != Stable)
  }

  /** The same, now and once the send loop has received the message it was signalled. */
  ghost predicate Accounted(s: State) {
    OneInFlight(s) && (Enabled(s, RecvMessage) ==> OneInFlight(Step(s, RecvMessage)))
  }

  ghost predicate AlwaysAccounted(s: State, es: seq<Event>) {
    && (es != [] ==> AlwaysAccounted(s, es[..|es| - 1]))
    && (Run(s, es).Some? ==> Accounted(Run(s, es).value))
  }

  lemma SignalledIsInFlight(s: State)
    requires Safe(s) && Signalled(s.mail)
    ensures OneInFlight(s)
  {
  }

  lemma SignalledIsAccounted(s: State)
    requires Safe(s) && Signalled(s.mail)
    ensures Accounted(s)
  {
    SignalledIsInFlight(s);
    if Enabled(s, RecvMessage) {
      StepKeepsSafe(s, RecvMessage);
      StepKeepsSignalled(s, RecvMessage);
      SignalledIsInFlight(Step(s, RecvMessage));
    }
  }

  /** After a harmful tick the next receive leaves a signal that no message stands behind. */
  lemma HarmfulTickShows(s: State, e: Event)
    requires Safe(s) && Signalled(s.mail) && Enabled(s, e) && !Harmless(s, e)
    ensures !Accounted(Step(s, e))
  {
    TickMail(s, e.screen, e.time, e.file);
    TickBetweenReceives(s, e.screen, e.time, e.file);
    SignalLeftOver(Step(s, e));
  }

  lemma SignalLeftOver(s: State)
    requires s.mail.loop.GotSignal? && s.mail.signal && |s.mail.queue| == 1
    ensures !Accounted(s)
  {
    assert Step(s, RecvMessage).mail.queue == [];
  }

  /**
   In every state of a run exactly one message is in flight or none, and the
   status tells, if and only if no tick between the two receives found the
   screen stable.
   */
  lemma {:induction false} OneMessageInFlight(cfg: Config, prompt: seq<Part>, now: int, es: seq<Event>)
    requires Run(Init(cfg, prompt, now), es).Some?
    ensures HarmlessRun(Init(cfg, prompt, now), es) <==> AlwaysAccounted(Init(cfg, prompt, now), es)
  {
    var s0 := Init(cfg, prompt, now);
    InitSafe(cfg, prompt, now);
    if es == [] {
      SignalledIsAccounted(s0);
    } else {
      var before, e := es[..|es| - 1], es[|es| - 1];
      RunPrefix(s0, es);
      OneMessageInFlight(cfg, prompt, now, before);
      if HarmlessRun(s0, before) {
        RunKeepsSafe(s0, before);
        RunKeepsSignalled(s0, before);
        LastStepInFlight(Run(s0, before).value, e);
      }
    }
  }

  lemma LastStepInFlight(s: State, e: Event)
    requires Safe(s) && Signalled(s.mail) && Enabled(s, e)
    ensures Accounted(Step(s, e)) <==> Harmless(s, e)
  {
    if Harmless(s, e) {
      StepKeepsSafe(s, e);
      StepKeepsSignalled(s, e);
      SignalledIsAccounted(Step(s, e));
    } else {
      HarmfulTickShows(s, e);
    }
  }

  // ---------------------------------------------------- the initial prompt

  /** On every run: no tick blocks on the queue, no Send does, and the prompt is queued at most once. */
  lemma PromptPushNeverBlocks(cfg: Config, prompt: seq<Part>, now: int, es: seq<Event>, screen: string, file: SavedFile)
    requires Run(Init(cfg, prompt, now), es).Some?
    ensures var s := Run(Init(cfg, prompt, now), es).value;
            && !TickBlocks(s, screen, file)
            && (s.mail.caller.Checked? ==> Enabled(s, Push))
            && |s.mail.queue| <= 1
            && s.boot.pushes <= 1
            && (!s.boot.ready ==> s.mail.queue == [] && s.mail.caller.Free?)
            && (s.boot.ready ==> s.boot.prompt == [] || s.boot.promptSent)
  {
    InitSafe(cfg, prompt, now);
    RunKeepsSafe(Init(cfg, prompt, now), es);
  }

  // ------------------------------------------------------------ the answers

  lemma AnswersOnlyGrow(s: State, e: Event)
    requires Safe(s) && Enabled(s, e)
    ensures s.mail.answers <= Step(s, e).mail.answers
    ensures s.mail.loop.Exited? ==> Step(s, e).mail.loop.Exited? && Step(s, e).mail.answers == s.mail.answers
  {
    if e.Tick? {
      TickMail(s, e.screen, e.time, e.file);
    }
  }

  lemma {:induction false} ExitIsFinal(s: State, es: seq<Event>)
    requires Safe(s) && s.mail.loop.Exited? && Run(s, es).Some?
    ensures Run(s, es).value.mail.loop.Exited? && Run(s, es).value.mail.answers == s.mail.answers
  {
    if es != [] {
      RunPrefix(s, es);
      ExitIsFinal(s, es[..|es| - 1]);
      RunKeepsSafe(s, es[..|es| - 1]);
      AnswersOnlyGrow(Run(s, es[..|es| - 1]).value, es[|es| - 1]);
    }
  }

  lemma SafeAnswers(s: State)
    requires Safe(s)
    ensures forall i :: 0 <= i < |s.mail.answers| ==> s.mail.answers[i].ticket == i
    ensures |s.mail.answers| <= s.mail.tickets <= |s.mail.answers| + 1
    ensures s.mail.loop.Idle? ==> DeliveredTickets(s.mail.answers) == Tickets(s.mail.delivered)
    ensures Enabled(s, EndDrain) ==> |s.mail.answers| == s.mail.tickets
  {
  }

  /**
   Tickets are answered in order and at most one is open; the answer tells the
   truth about the history.  A message queued before the final drain ends is
   answered exactly once, and none queued after it is ever answered.
   */
  lemma AnsweredExactlyOnce(cfg: Config, prompt: seq<Part>, now: int, before: seq<Event>, after: seq<Event>)
    requires Run(Init(cfg, prompt, now), before).Some?
    requires Run(Init(cfg, prompt, now), before + after).Some?
    ensures var s := Run(Init(cfg, prompt, now), before).value;
            && (forall i :: 0 <= i < |s.mail.answers| ==> s.mail.answers[i].ticket == i)
            && |s.mail.answers| <= s.mail.tickets <= |s.mail.answers| + 1
            && (s.mail.loop.Idle? ==> DeliveredTickets(s.mail.answers) == Tickets(s.mail.delivered))
            && (Enabled(s, EndDrain) ==> |s.mail.answers| == s.mail.tickets)
            && (s.mail.loop.Exited? ==>
                  Run(Init(cfg, prompt, now), before + after).value.mail.answers == s.mail.answers)
  {
    var s0 := Init(cfg, prompt, now);
    InitSafe(cfg, prompt, now);
    RunKeepsSafe(s0, before);
    RunConcat(s0, before, after);
    SafeAnswers(Run(s0, before).value);
    if Run(s0, before).value.mail.loop.Exited? {
      ExitIsFinal(Run(s0, before).value, after);
    }
  }

  /** No message is queued once the send loop has exited. */
  ghost predicate PunctualRun(s: State, es: seq<Event>) {
    es == [] ||
    var before := es[..|es| - 1];
    && PunctualRun(s, before)
    && (Run(s, before).Some? && Run(s, before).value.mail.loop.Exited? ==> !es[|es| - 1].Push?)
  }

  lemma OpenTickets(s: State, e: Event)
    requires Safe(s) && Enabled(s, e)
    ensures var m, n := s.mail, Step(s, e).mail;
      if m.loop.Exited? then n.loop.Exited? && n.answers == m.answers && n.tickets == m.tickets + (if e.Push? then 1 else 0)
      else n.loop.Exited? ==> |n.answers| == n.tickets
  {
    if e.Tick? {
      TickMail(s, e.screen, e.time, e.file);
    }
  }

  /** So when the loop has exited, every call of Send has its answer if and only if none queued its message too late. */
  lemma {:induction false} AnsweredUnlessLate(cfg: Config, prompt: seq<Part>, now: int, es: seq<Event>)
    requires Run(Init(cfg, prompt, now), es).Some?
    ensures var m := Run(Init(cfg, prompt, now), es).value.mail;
      if m.loop.Exited? then |m.answers| == m.tickets <==> PunctualRun(Init(cfg, prompt, now), es)
      else PunctualRun(Init(cfg, prompt, now), es)
  {
    if es != [] {
      var s0 := Init(cfg, prompt, now);
      var before, e := es[..|es| - 1], es[|es| - 1];
      RunPrefix(s0, es);
      AnsweredUnlessLate(cfg, prompt, now, before);
      InitSafe(cfg, prompt, now);
      RunKeepsSafe(s0, before);
      OpenTickets(Run(s0, before).value, e);
    }
  }

  // ------------------------------------------------------------ the history

  /**
   In every state of a run each id is a position, no two neighbours speak with
   the same role, and no user message is on its way behind another, if and only
   if every restored history is well formed and none that ends in a user
   message has a prompt queued behind it.
   */
  lemma HistoryIsWellFormed(cfg: Config, prompt: seq<Part>, now: int, es: seq<Event>)
    requires Run(Init(cfg, prompt, now), es).Some?
    ensures CleanRun(Init(cfg, prompt, now), es) <==> AlwaysTidy(Init(cfg, prompt, now), es)
    ensures CleanRun(Init(cfg, prompt, now), es) ==>
      WellFormedHistory(Run(Init(cfg, prompt, now), es).value.chat.messages)
  {
    InitSafe(cfg, prompt, now);
    RunKeepsTidy(Init(cfg, prompt, now), es);
  }

  /** An event that keeps the history going, rather than replacing it. */
  predicate Continues(s: State, e: Event) {
    !e.Clear? && (e.Tick? ==> !Restores(s, e.screen, e.file))
  }

  /** Between clears and restores a step appends or rewrites a last agent message; no tick does while writing. */
  lemma StepEvolves(s: State, e: Event)
    requires Safe(s) && Tidy(s) && Enabled(s, e) && Continues(s, e)
    ensures Evolves(s.chat.messages, Step(s, e).chat.messages)
    ensures e.Tick? && s.mail.loop.Writing? ==> Step(s, e).chat.messages == s.chat.messages
  {
    if e.Tick? {
      TickHistory(s, e.screen, e.time, e.file);
    } else {
      ChatStepHistory(s, e);
    }
  }

  // ------------------------------------------------- what a delivery appends

  /** The messages callers of Send queued in a run, by ticket. */
  function Sent(s: State, es: seq<Event>): seq<seq<Part>>
    requires Run(s, es).Some?
  {
    if es == [] then []
    else
      var n := |es| - 1;
      assert Run(s, es[..n]).Some?;
      Sent(s, es[..n]) + if es[n].Push? then [Run(s, es[..n]).value.mail.caller.parts] else []
  }

  /** The screen read at the start of the latest write. */
  function LatestWriteScreen(es: seq<Event>): string {
    if es == [] then ""
    else if es[|es| - 1].BeginWrite? then es[|es| - 1].screen
    else LatestWriteScreen(es[..|es| - 1])
  }

  /** The screen read at the start of the latest write that succeeded. */
  function LatestDeliveryScreen(es: seq<Event>): string {
    if es == [] then ""
    else if es[|es| - 1].FinishOk? then LatestWriteScreen(es[..|es| - 1])
    else LatestDeliveryScreen(es[..|es| - 1])
  }

  ghost predicate Carries(msg: Outbound, sent: seq<seq<Part>>, prompt: seq<Part>) {
    match msg.ticket
    case None => msg.parts == prompt
    case Some(t) => t < |sent| && msg.parts == sent[t]
  }

  ghost predicate AllCarry(boot: Boot, m: Mail, sent: seq<seq<Part>>) {
    && |sent| == m.tickets
    && (m.loop.Holds() ==> boot.ready && Carries(m.loop.msg, sent, boot.prompt))
    && (m.queue != [] ==> boot.ready && Carries(m.queue[0], sent, boot.prompt))
  }

  lemma MailCarries(cfg: Config, boot: Boot, m: Mail, e: Event, accepted: bool, sent: seq<seq<Part>>)
    requires QueueSafe(cfg, boot, m) && TicketsSafe(m) && MailEnabled(m, e) && AllCarry(boot, m, sent)
    ensures AllCarry(boot, MailStep(m, e, accepted), sent + if e.Push? then [m.caller.parts] else [])
  {
    if e.Push? {
      PushCarries(cfg, boot, m, sent);
    } else {
      assert sent + [] == sent;
    }
  }

  lemma PushCarries(cfg: Config, boot: Boot, m: Mail, sent: seq<seq<Part>>)
    requires QueueSafe(cfg, boot, m) && TicketsSafe(m) && MailEnabled(m, Push) && AllCarry(boot, m, sent)
    ensures AllCarry(boot, MailStep(m, Push, false), sent + [m.caller.parts])
  {
  }

  lemma TickCarries(s: State, screen: string, time: int, file: SavedFile, sent: seq<seq<Part>>)
    requires Safe(s) && AllCarry(s.boot, s.mail, sent)
    ensures var t := TickStep(s, screen, time, file); AllCarry(t.boot, t.mail, sent)
  {
    TickMail(s, screen, time, file);
  }

  lemma StepCarries(s: State, e: Event, sent: seq<seq<Part>>)
    requires Safe(s) && Enabled(s, e) && AllCarry(s.boot, s.mail, sent)
    ensures AllCarry(Step(s, e).boot, Step(s, e).mail, sent + if e.Push? then [s.mail.caller.parts] else [])
  {
    if e.Tick? {
      TickCarries(s, e.screen, e.time, e.file, sent);
      assert sent + [] == sent;
    } else {
      MailCarries(s.cfg, s.boot, s.mail, e, e.Send? && SendCheck(s, e.parts).Accepted?, sent);
    }
  }

  lemma {:induction false} RunCarries(cfg: Config, prompt: seq<Part>, now: int, es: seq<Event>)
    requires Run(Init(cfg, prompt, now), es).Some?
    ensures var s := Run(Init(cfg, prompt, now), es).value;
            Safe(s) && AllCarry(s.boot, s.mail, Sent(Init(cfg, prompt, now), es))
  {
    var s0 := Init(cfg, prompt, now);
    InitSafe(cfg, prompt, now);
    RunKeepsSafe(s0, es);
    if es != [] {
      var n := |es| - 1;
      RunPrefix(s0, es);
      RunCarries(cfg, prompt, now, es[..n]);
      StepCarries(Run(s0, es[..n]).value, es[n], Sent(s0, es[..n]));
    }
  }

  lemma ScreensStep(s: State, e: Event)
    requires Enabled(s, e)
    ensures Step(s, e).mail.loop.Writing? ==>
              if e.BeginWrite? then Step(s, e).mail.loop.screen == e.screen
              else s.mail.loop.Writing? && Step(s, e).mail.loop == s.mail.loop
    ensures Step(s, e).chat.screenBefore == if e.FinishOk? then s.mail.loop.screen else s.chat.screenBefore
  {
  }

  /** Agent text is always what changed since the screen of the latest delivered message. */
  lemma {:induction false} ScreenBeforeIsLatestDelivery(cfg: Config, prompt: seq<Part>, now: int, es: seq<Event>)
    requires Run(Init(cfg, prompt, now), es).Some?
    ensures var s := Run(Init(cfg, prompt, now), es).value;
            && s.chat.screenBefore == LatestDeliveryScreen(es)
            && (s.mail.loop.Writing? ==> s.mail.loop.screen == LatestWriteScreen(es))
  {
    if es != [] {
      RunPrefix(Init(cfg, prompt, now), es);
      ScreenBeforeIsLatestDelivery(cfg, prompt, now, es[..|es| - 1]);
      ScreensStep(Run(Init(cfg, prompt, now), es[..|es| - 1]).value, es[|es| - 1]);
    }
  }

  /** A finished write appends the shown text of the very message its ticket was issued for, or of the prompt. */
  lemma DeliveryAppendsWhatWasSent(cfg: Config, prompt: seq<Part>, now: int, es: seq<Event>)
    requires Run(Init(cfg, prompt, now), es).Some?
    requires Enabled(Run(Init(cfg, prompt, now), es).value, FinishOk)
    ensures var s := Run(Init(cfg, prompt, now), es).value;
            var t := Step(s, FinishOk).chat.messages;
            var sent := Sent(Init(cfg, prompt, now), es);
            var ticket := s.mail.loop.msg.ticket;
            && |t| == |s.chat.messages| + 1 && t[..|s.chat.messages|] == s.chat.messages
            && t[|t| - 1].role == User
            && (ticket.None? ==> t[|t| - 1].text == ShownText(s.boot.prompt))
            && (ticket.Some? ==> ticket.value < |sent| && t[|t| - 1].text == ShownText(sent[ticket.value]))
  {
    RunCarries(cfg, prompt, now, es);
  }

  // ---------------------------------------------------- what ticks broadcast

  /** All lists broadcast by the ticks of a run, in order: one goroutine runs them all. */
  function Broadcasts(s: State, es: seq<Event>): seq<seq<Message>>
    requires Run(s, es).Some?
  {
    if es == [] then []
    else
      var n := |es| - 1;
      assert Run(s, es[..n]).Some?;
      Broadcasts(s, es[..n])
      + match es[n] case Tick(screen, time, _) => [TickEmits(Run(s, es[..n]).value, screen, time)] case _ => []
  }

  /** An event that does not make the history shorter: no clear, and what it restores is clean and not empty. */
  ghost predicate CarriesOn(s: State, e: Event) {
    !e.Clear? && (e.Tick? && Restores(s, e.screen, e.file) ==> LoadsCleanly(s, e) && e.file.record.messages != [])
  }

  ghost predicate ContinuousRun(s: State, es: seq<Event>) {
    es == [] ||
    var before := es[..|es| - 1];
    ContinuousRun(s, before) && (Run(s, before).Some? ==> CarriesOn(Run(s, before).value, es[|es| - 1]))
  }

  /** Lists that only get longer, with ids that are positions: each extends the one before. */
  ghost predicate GrowingLists(lists: seq<seq<Message>>) {
    && (forall i :: 0 <= i < |lists| ==> IdsArePositions(lists[i]))
    && (forall i, j :: 0 <= i <= j < |lists| ==> |lists[i]| <= |lists[j]|)
  }

  ghost predicate NoLongerThan(lists: seq<seq<Message>>, messages: seq<Message>) {
    forall i :: 0 <= i < |lists| ==> |lists[i]| <= |messages|
  }

  lemma GrowByOne(lists: seq<seq<Message>>, last: seq<Message>)
    requires GrowingLists(lists) && NoLongerThan(lists, last) && IdsArePositions(last)
    ensures GrowingLists(lists + [last]) && NoLongerThan(lists + [last], last)
  {
  }

  /** A tick that restores nothing broadcasts the history it leaves behind. */
  lemma TickEmitsWhatItLeaves(s: State, e: Event)
    requires Safe(s) && Tidy(s) && Enabled(s, e) && Continues(s, e)
    ensures e.Tick? ==> TickEmits(s, e.screen, e.time) == Step(s, e).chat.messages
    ensures |s.chat.messages| <= |Step(s, e).chat.messages|
    ensures Safe(Step(s, e)) && Tidy(Step(s, e))
  {
    StepEvolves(s, e);
    StepKeepsSafe(s, e);
    StepKeepsTidy(s, e);
  }

  /** Before the agent is ready the history holds its opening message at most. */
  ghost predicate Young(s: State) {
    !s.boot.ready ==> |s.chat.messages| <= 1
  }

  lemma ObservedYoung(s: State, screen: string, time: int)
    requires Tidy(s) && Young(s)
    ensures !s.boot.ready ==> |TickEmits(s, screen, time)| <= 1
    ensures |s.chat.messages| <= |TickEmits(s, screen, time)| && IdsArePositions(TickEmits(s, screen, time))
  {
    var text := Rendered(s.cfg, s.boot.load, s.chat.(screens := s.chat.screens + [screen]), screen);
    AgentTextKeepsForm(s.chat.messages, text, time);
  }

  lemma StepKeepsYoung(s: State, e: Event)
    requires Safe(s) && Tidy(s) && Young(s) && Enabled(s, e)
    ensures Young(Step(s, e))
  {
    if e.Tick? {
      ObservedYoung(s, e.screen, e.time);
    }
  }

  /** A tick broadcasts a list between the history before it and the one it leaves behind. */
  lemma StepCarriesOn(s: State, e: Event)
    requires Safe(s) && Tidy(s) && Young(s) && Enabled(s, e) && CarriesOn(s, e)
    ensures |s.chat.messages| <= |Step(s, e).chat.messages|
    ensures e.Tick? ==>
      var emitted := TickEmits(s, e.screen, e.time);
      IdsArePositions(emitted) && |s.chat.messages| <= |emitted| <= |Step(s, e).chat.messages|
  {
    if e.Tick? && Restores(s, e.screen, e.file) {
      ObservedYoung(s, e.screen, e.time);
    } else {
      TickEmitsWhatItLeaves(s, e);
    }
  }

  lemma ContinuousPrefix(s: State, es: seq<Event>)
    requires es != [] && ContinuousRun(s, es) && Run(s, es).Some?
    ensures ContinuousRun(s, es[..|es| - 1])
    ensures Run(s, es[..|es| - 1]).Some? && CarriesOn(Run(s, es[..|es| - 1]).value, es[|es| - 1])
  {
  }

  /** Steps that carry on keep all invariants. */
  lemma StepStaysWell(s: State, e: Event)
    requires Safe(s) && Tidy(s) && Young(s) && Enabled(s, e) && CarriesOn(s, e)
    ensures Safe(Step(s, e)) && Tidy(Step(s, e)) && Young(Step(s, e))
  {
    StepKeepsSafe(s, e);
    StepKeepsTidy(s, e);
    StepKeepsYoung(s, e);
  }

  lemma StepBroadcasts(s: State, e: Event, lists: seq<seq<Message>>)
    requires Safe(s) && Tidy(s) && Young(s) && Enabled(s, e) && CarriesOn(s, e)
    requires GrowingLists(lists) && NoLongerThan(lists, s.chat.messages)
    ensures var more := lists + if e.Tick? then [TickEmits(s, e.screen, e.time)] else [];
      GrowingLists(more) && NoLongerThan(more, Step(s, e).chat.messages)
  {
    StepCarriesOn(s, e);
    if e.Tick? {
      GrowByOne(lists, TickEmits(s, e.screen, e.time));
    } else {
      assert lists + [] == lists;
    }
  }

  /** Over a run that never clears and restores nothing unclean or empty, the broadcast lists only grow. */
  lemma {:induction false} BroadcastsGrow(s: State, es: seq<Event>)
    requires Safe(s) && Tidy(s) && Young(s) && Run(s, es).Some? && ContinuousRun(s, es)
    ensures Tidy(Run(s, es).value) && Safe(Run(s, es).value) && Young(Run(s, es).value)
    ensures GrowingLists(Broadcasts(s, es))
    ensures NoLongerThan(Broadcasts(s, es), Run(s, es).value.chat.messages)
  {
    if es != [] {
      var n := |es| - 1;
      ContinuousPrefix(s, es);
      RunPrefix(s, es);
      BroadcastsGrow(s, es[..n]);
      StepStaysWell(Run(s, es[..n]).value, es[n]);
      StepBroadcasts(Run(s, es[..n]).value, es[n], Broadcasts(s, es[..n]));
    }
  }

  /** A last tick that restores nothing broadcasts the history the run ends with. */
  lemma LastBroadcast(s: State, es: seq<Event>)
    requires Safe(s) && Tidy(s) && Young(s) && Run(s, es).Some? && ContinuousRun(s, es)
    requires es != [] && es[|es| - 1].Tick? && Continues(Run(s, es[..|es| - 1]).value, es[|es| - 1])
    ensures var lists := Broadcasts(s, es);
      lists != [] && lists[|lists| - 1] == Run(s, es).value.chat.messages
  {
    var n := |es| - 1;
    ContinuousPrefix(s, es);
    RunPrefix(s, es);
    BroadcastsGrow(s, es[..n]);
    TickEmitsWhatItLeaves(Run(s, es[..n]).value, es[n]);
  }

  // ---------------------------------------------------------------- restart

  /** An event that can neither add a user message nor wipe the history. */
  predicate LeavesHistory(e: Event) {
    !e.FinishOk? && !e.Clear?
  }

  /** The tool-call formatter, if there is one, has nothing to take from the text. */
  predicate LeftAlone(cfg: Config, text: string) {
    cfg.formatToolCall.None? || cfg.formatToolCall.value(text) == text
  }

  /** A restored history ends in an agent text that the tool-call formatter has nothing to take from. */
  ghost predicate RestoredAtRest(s: State) {
    && s.boot.load.Succeeded? && !s.chat.userSent
    && EndsIn(s.chat.messages, Agent)
    && LeftAlone(s.cfg, s.chat.messages[|s.chat.messages| - 1].text)
  }

  lemma RestedStep(s: State, e: Event)
    requires RestoredAtRest(s) && Enabled(s, e) && LeavesHistory(e)
    ensures RestoredAtRest(Step(s, e)) && Step(s, e).chat.messages == s.chat.messages
  {
  }

  lemma {:induction false} RestoredHistoryRests(s: State, es: seq<Event>)
    requires RestoredAtRest(s) && Run(s, es).Some?
    requires forall k :: 0 <= k < |es| ==> LeavesHistory(es[k])
    ensures RestoredAtRest(Run(s, es).value) && Run(s, es).value.chat.messages == s.chat.messages
  {
    if es != [] {
      RunPrefix(s, es);
      RestoredHistoryRests(s, es[..|es| - 1]);
      RestedStep(Run(s, es[..|es| - 1]).value, es[|es| - 1]);
    }
  }

  /** No user message is appended before the agent is ready, so a restore finds the first-message flag clear. */
  lemma {:induction false} UnreadySendsNothing(cfg: Config, prompt: seq<Part>, now: int, es: seq<Event>)
    requires Run(Init(cfg, prompt, now), es).Some?
    ensures var s := Run(Init(cfg, prompt, now), es).value;
            s.cfg == cfg && (!s.boot.ready ==> !s.chat.userSent && s.boot.prompt == prompt && !s.boot.promptSent)
  {
    var s0 := Init(cfg, prompt, now);
    if es != [] {
      RunPrefix(s0, es);
      var mid, e := Run(s0, es[..|es| - 1]).value, es[|es| - 1];
      UnreadySendsNothing(cfg, prompt, now, es[..|es| - 1]);
      InitSafe(cfg, prompt, now);
      RunKeepsSafe(s0, es[..|es| - 1]);
      if e.Tick? {
        TickMail(mid, e.screen, e.time, e.file);
      }
    }
  }

  /** The prompt a restarted conversation ends up with. */
  function PromptAfterRestart(configured: seq<Part>, saved: string): seq<Part> {
    if configured != [] then configured else if saved != "" then [Part(saved, "", false)] else []
  }

  /** The tick that restores: history, prompt and queue after it. */
  lemma RestoringTick(s: State, r: Record, screen: string, time: int)
    requires Safe(s) && !s.boot.ready && s.cfg.loadState && s.cfg.readyForPrompt(screen)
    requires r.version == 1 && !s.chat.userSent
    ensures var t := TickStep(s, screen, time, Saved(r)); var p := PromptAfterRestart(s.boot.prompt, r.prompt);
      && t.cfg == s.cfg && t.chat.messages == r.messages && t.boot.prompt == p
      && t.mail.queue == (if p != [] && (ShownText(p) != r.prompt || !r.promptSent) then [Outbound(p, None)] else [])
      && t.boot.load.Succeeded? && !t.chat.userSent
  {
    TickMail(s, screen, time, Saved(r));
    assert ShownText([Part(r.prompt, "", false)]) == r.prompt + ShownText([]);
  }

  /**
   A conversation is saved, another starts and runs as it may until a tick
   finds its agent ready and loads that record: the history is back, and the
   prompt is queued exactly when there is one that the record does not already
   count as sent.  A history that ends in an agent text which the tool-call
   formatter leaves alone then stays until a user message goes out.
   */
  lemma RestartKeepsConversation(past: State, cfg: Config, prompt: seq<Part>, now: int,
                                 before: seq<Event>, screen: string, time: int, after: seq<Event>)
    requires SavedRecord(past).Some? && cfg.loadState && cfg.readyForPrompt(screen)
    requires Run(Init(cfg, prompt, now), before).Some?
    requires !Run(Init(cfg, prompt, now), before).value.boot.ready
    ensures
      var r := SavedRecord(past).value;
      var t := TickStep(Run(Init(cfg, prompt, now), before).value, screen, time, Saved(r));
      var p := PromptAfterRestart(prompt, r.prompt);
      && t.chat.messages == past.chat.messages
      && t.boot.prompt == p
      && t.mail.queue == (if p != [] && (ShownText(p) != r.prompt || !r.promptSent) then [Outbound(p, None)] else [])
      && (EndsIn(past.chat.messages, Agent) && LeftAlone(cfg, past.chat.messages[|past.chat.messages| - 1].text)
          ==> RestoredAtRest(t))
      && (EndsIn(past.chat.messages, Agent) && LeftAlone(cfg, past.chat.messages[|past.chat.messages| - 1].text)
          && Run(t, after).Some? && (forall k :: 0 <= k < |after| ==> LeavesHistory(after[k]))
          ==> Run(t, after).value.chat.messages == past.chat.messages)
  {
    var s := Run(Init(cfg, prompt, now), before).value;
    InitSafe(cfg, prompt, now);
    RunKeepsSafe(Init(cfg, prompt, now), before);
    UnreadySendsNothing(cfg, prompt, now, before);
    RestoringTick(s, SavedRecord(past).value, screen, time);
    RestsAfterwards(TickStep(s, screen, time, Saved(SavedRecord(past).value)), after);
  }

  lemma RestsAfterwards(t: State, after: seq<Event>)
    requires t.boot.load.Succeeded? && !t.chat.userSent
    ensures EndsIn(t.chat.messages, Agent) && LeftAlone(t.cfg, t.chat.messages[|t.chat.messages| - 1].text)
      && Run(t, after).Some? && (forall k :: 0 <= k < |after| ==> LeavesHistory(after[k]))
      ==> Run(t, after).value.chat.messages == t.chat.messages
  {
    if EndsIn(t.chat.messages, Agent) && LeftAlone(t.cfg, t.chat.messages[|t.chat.messages| - 1].text)
      && Run(t, after).Some? && (forall k :: 0 <= k < |after| ==> LeavesHistory(after[k])) {
      RestoredHistoryRests(t, after);
    }
  }

  // -------------------------------------------------------- screen stability

  /**
   The screen counts as stable exactly when the last `threshold` screens read
   agree.  With a tick every `interval` ms these screens were read over at
   least `length` ms, and one screen fewer would not cover it.
   */
  lemma StableMeansUnchangedFor(cfg: Config, chat: Chat, length: int, interval: int)
    requires length > 0 && interval > 0 && cfg.threshold == StableSnapshotsThreshold(length, interval)
    ensures var n := |chat.screens|;
            ScreenStable(cfg, chat) <==>
              n >= cfg.threshold
              && forall i, j :: n - cfg.threshold <= i <= j < n ==> chat.screens[i] == chat.screens[j]
    ensures var first, last := |chat.screens| - cfg.threshold, |chat.screens| - 1;
            (last - first) * interval >= length > (last - first - 1) * interval
  {
    ThresholdSpans(length, interval);
    var n, shots := |chat.screens|, Snapshots(cfg, chat);
    if n >= cfg.threshold {
      assert forall i :: n - cfg.threshold <= i < n ==> chat.screens[i] == shots[i - (n - cfg.threshold)];
      assert forall i :: 0 <= i < |shots| ==> shots[i] == chat.screens[n - cfg.threshold + i];
    }
  }
}
