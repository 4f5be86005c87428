/**
 What every reachable state of the PTY protocol satisfies.  `Safe` holds on
 all runs; `Signalled` holds exactly when no tick between the two receives of
 the send loop finds the screen stable (`HarmlessRun`), and `Tidy` exactly when
 every restored history is clean (`CleanRun`).
 */
module PtyInvariants {
  import opened Text
  import opened Conversations
  import opened PtyModel

  // -------------------------------------------------------------- invariants

  /** The queue, the initial prompt, and the flags that guard them. */
  ghost predicate QueueSafe(cfg: Config, boot: Boot, m: Mail) {
    && |m.queue| <= 1
    && (m.caller.Checked? ==> m.queue == [])
    && (!boot.ready ==>
          m.queue == [] && m.caller.Free? && !m.signal && !m.sending && boot.pushes == 0
          && (m.loop.Idle? || !m.loop.Live()))
    && (boot.ready ==> boot.prompt == [] || boot.promptSent)
    && boot.pushes <= 1
    && (boot.load.Pending? <==> !(boot.ready && cfg.loadState))
  }

  function TicketOf(msg: Outbound): seq<nat> {
    match msg.ticket
    case None => []
    case Some(t) => [t]
  }

  /** The tickets taken but not yet answered: in the send loop's hands, or queued. */
  function InFlight(m: Mail): seq<nat> {
    (if m.loop.Holds() then TicketOf(m.loop.msg) else [])
    + (if m.queue == [] then [] else TicketOf(m.queue[0]))
  }

  /** Tickets are answered in the order they were issued, each once, and at most one is open. */
  ghost predicate TicketsSafe(m: Mail) {
    var k := |m.answers|;
    && k <= m.tickets <= k + 1
    && (forall i :: 0 <= i < k ==> m.answers[i].ticket == i)
    && InFlight(m) == (if k == m.tickets then [] else [k])
    && (!m.caller.Waiting? ==> k == m.tickets)
  }

  function DeliveredTickets(answers: seq<Answer>): seq<nat> {
    if answers == [] then []
    else
      var last := answers[|answers| - 1];
      DeliveredTickets(answers[..|answers| - 1]) + if last.outcome.Delivered? then [last.ticket] else []
  }

  function Tickets(delivered: seq<Option<nat>>): seq<nat> {
    if delivered == [] then []
    else
      var last := delivered[|delivered| - 1];
      Tickets(delivered[..|delivered| - 1]) + if last.Some? then [last.value] else []
  }

  /** Send returns nil exactly for the messages that entered the history. */
  ghost predicate AnswersTruthful(m: Mail) {
    Tickets(m.delivered)
    == DeliveredTickets(m.answers)
       + if (m.loop.Returned? || m.loop.Cleared?) && m.loop.ok then TicketOf(m.loop.msg) else []
  }

  ghost predicate Safe(s: State) {
    && QueueSafe(s.cfg, s.boot, s.mail)
    && TicketsSafe(s.mail)
    && AnswersTruthful(s.mail)
    && PromptFirst(s.mail)
    && (s.chat.writing <==> s.mail.loop.Writing?)
  }

  /** The initial prompt is the first message taken, and its whole flight is flagged. */
  ghost predicate PromptFirst(m: Mail) {
    && (m.queue != [] && m.queue[0].ticket.None? ==>
          !m.loop.Holds() && !m.caller.Checked? && (m.signal || m.loop.GotSignal? ==> m.sending))
    && (m.loop.Sending() && m.loop.msg.ticket.None? ==>
          m.sending && m.queue == [] && !m.caller.Checked?)
  }

  /** The signal, the flag and the message in flight agree while the send loop lives. */
  ghost predicate Signalled(m: Mail) {
    m.loop.Live() ==>
      && (m.signal ==> |m.queue| == 1 && m.sending && (m.loop.Idle? || m.loop.Cleared?))
      && (m.loop.GotSignal? ==> |m.queue| == 1)
      && (m.loop.Sending() ==> m.queue == [] && !m.caller.Checked?)
      && (m.sending <==> m.signal || m.loop.GotSignal? || m.loop.Sending())
  }

  /** A user message is on its way into the history. */
  predicate UserPending(m: Mail) {
    m.queue != [] || m.caller.Checked? || m.loop.Taken? || m.loop.Writing?
  }

  ghost predicate Tidy(s: State) {
    && WellFormedHistory(s.chat.messages)
    && (UserPending(s.mail) || !s.boot.ready ==> !EndsIn(s.chat.messages, User))
  }

  lemma InitSafe(cfg: Config, prompt: seq<Part>, now: int)
    ensures var s := Init(cfg, prompt, now); Safe(s) && Signalled(s.mail) && Tidy(s)
  {
  }

  // ------------------------------------------------------------ safe, always

  /** A tick touches the channels by queueing the prompt, at most once, and by raising the signal. */
  lemma TickMail(s: State, screen: string, time: int, file: SavedFile)
    requires QueueSafe(s.cfg, s.boot, s.mail)
    ensures var t := TickStep(s, screen, time, file);
            && t.mail == s.mail.(queue := t.mail.queue, signal := t.mail.signal, sending := t.mail.sending)
            && t.chat.writing == s.chat.writing
            && (s.boot.ready ==> t.boot == s.boot && t.mail.queue == s.mail.queue)
            && (t.mail.queue == s.mail.queue
                || (s.mail.queue == [] && !s.boot.ready && t.mail.queue == [Outbound(t.boot.prompt, None)]))
            && ((t.mail.signal == s.mail.signal && t.mail.sending == s.mail.sending)
                || (t.boot.ready && t.mail.queue != [] && !s.mail.signal && t.mail.signal && t.mail.sending))
  {
  }

  /** The push of the initial prompt always finds the queue empty. */
  lemma RoomForPrompt(s: State, screen: string, file: SavedFile)
    requires QueueSafe(s.cfg, s.boot, s.mail)
    ensures !TickBlocks(s, screen, file)
  {
  }

  lemma TickKeepsQueueSafe(s: State, screen: string, time: int, file: SavedFile)
    requires QueueSafe(s.cfg, s.boot, s.mail)
    ensures var t := TickStep(s, screen, time, file); QueueSafe(t.cfg, t.boot, t.mail)
  {
    TickMail(s, screen, time, file);
  }

  lemma StepKeepsTickets(m: Mail, e: Event, accepted: bool)
    requires MailEnabled(m, e) && |m.queue| <= 1 && (m.caller.Checked? ==> m.queue == [])
    requires TicketsSafe(m)
    ensures TicketsSafe(MailStep(m, e, accepted))
  {
    if MailStep(m, e, accepted).answers != m.answers {
      assert InFlight(m)[0] == |m.answers|;
    }
  }

  lemma StepKeepsQueueSafe(cfg: Config, boot: Boot, m: Mail, e: Event, accepted: bool)
    requires MailEnabled(m, e) && QueueSafe(cfg, boot, m)
    requires accepted ==> boot.ready && m.queue == []
    ensures QueueSafe(cfg, boot, MailStep(m, e, accepted))
  {
  }

  lemma StepKeepsPromptFirst(cfg: Config, boot: Boot, m: Mail, e: Event, accepted: bool)
    requires MailEnabled(m, e) && QueueSafe(cfg, boot, m) && PromptFirst(m)
    requires accepted ==> m.queue == [] && !m.sending
    ensures PromptFirst(MailStep(m, e, accepted))
  {
  }

  lemma AcceptedMeansIdle(s: State, parts: seq<Part>)
    requires SendCheck(s, parts).Accepted?
    ensures s.boot.ready && s.mail.queue == [] && !s.mail.sending && !EndsIn(s.chat.messages, User)
  {
  }

  lemma StepKeepsTruth(m: Mail, e: Event, accepted: bool)
    requires MailEnabled(m, e) && AnswersTruthful(m)
    ensures AnswersTruthful(MailStep(m, e, accepted))
  {
    var t := MailStep(m, e, accepted);
    assert t.answers != m.answers ==> |t.answers| == |m.answers| + 1 && t.answers[..|m.answers|] == m.answers;
    assert t.delivered != m.delivered ==>
        |t.delivered| == |m.delivered| + 1 && t.delivered[..|m.delivered|] == m.delivered;
  }

  lemma TickKeepsSafe(s: State, screen: string, time: int, file: SavedFile)
    requires Safe(s)
    ensures Safe(TickStep(s, screen, time, file))
  {
    TickKeepsQueueSafe(s, screen, time, file);
    TickMail(s, screen, time, file);
  }

  lemma ThreadStepKeepsSafe(s: State, e: Event)
    requires Safe(s) && MailEnabled(s.mail, e)
    ensures Safe(ThreadStep(s, e))
  {
    var accepted := e.Send? && SendCheck(s, e.parts).Accepted?;
    if accepted {
      AcceptedMeansIdle(s, e.parts);
    }
    StepKeepsQueueSafe(s.cfg, s.boot, s.mail, e, accepted);
    StepKeepsPromptFirst(s.cfg, s.boot, s.mail, e, accepted);
    StepKeepsTickets(s.mail, e, accepted);
    StepKeepsTruth(s.mail, e, accepted);
  }

  lemma StepKeepsSafe(s: State, e: Event)
    requires Safe(s) && Enabled(s, e)
    ensures Safe(Step(s, e))
  {
    if e.Tick? {
      TickKeepsSafe(s, e.screen, e.time, e.file);
    } else {
      ThreadStepKeepsSafe(s, e);
    }
  }

  // ------------------------------------------------- signalled, when harmless

  /** A tick that comes between the two receives signals again exactly when it finds the screen stable. */
  lemma TickBetweenReceives(s: State, screen: string, time: int, file: SavedFile)
    requires Safe(s) && Signalled(s.mail) && s.mail.loop.GotSignal?
    ensures TickStep(s, screen, time, file).mail.signal <==> ScreenStable(s.cfg, Observe(s, screen, time).chat)
  {
  }

  lemma TickKeepsSignalled(s: State, screen: string, time: int, file: SavedFile)
    requires Safe(s) && Signalled(s.mail)
    ensures Signalled(TickStep(s, screen, time, file).mail) <==> Harmless(s, Tick(screen, time, file))
  {
    TickMail(s, screen, time, file);
    if s.mail.loop.GotSignal? {
      TickBetweenReceives(s, screen, time, file);
    }
  }

  lemma MailKeepsSignalled(m: Mail, cfg: Config, boot: Boot, e: Event, accepted: bool)
    requires QueueSafe(cfg, boot, m) && Signalled(m) && MailEnabled(m, e)
    requires accepted ==> boot.ready && m.queue == [] && !m.sending
    ensures Signalled(MailStep(m, e, accepted))
  {
  }

  lemma ThreadStepKeepsSignalled(s: State, e: Event)
    requires Safe(s) && Signalled(s.mail) && MailEnabled(s.mail, e)
    ensures Signalled(ThreadStep(s, e).mail)
  {
    if e.Send? && SendCheck(s, e.parts).Accepted? {
      AcceptedMeansIdle(s, e.parts);
    }
    MailKeepsSignalled(s.mail, s.cfg, s.boot, e, e.Send? && SendCheck(s, e.parts).Accepted?);
  }

  /** The exact condition under which a step keeps signal, flag and message in agreement. */
  lemma StepKeepsSignalled(s: State, e: Event)
    requires Safe(s) && Signalled(s.mail) && Enabled(s, e)
    ensures Signalled(Step(s, e).mail) <==> Harmless(s, e)
  {
    if e.Tick? {
      TickKeepsSignalled(s, e.screen, e.time, e.file);
    } else {
      ThreadStepKeepsSignalled(s, e);
    }
  }

  // --------------------------------------------------------- tidy, when clean

  /** One message leaves the caller's hands at a time, so one user message is pending at most. */
  lemma LastPending(m: Mail, cfg: Config, boot: Boot)
    requires QueueSafe(cfg, boot, m) && TicketsSafe(m) && PromptFirst(m)
    requires m.loop.Taken? || m.loop.Writing?
    ensures m.queue == [] && !m.caller.Checked?
  {
    if m.loop.msg.ticket.Some? {
      assert InFlight(m) != [];
      assert |InFlight(m)| == 1;
    }
  }

  lemma AgentTextKeepsForm(messages: seq<Message>, text: string, time: int)
    requires WellFormedHistory(messages)
    ensures var r := WithAgentText(messages, text, time);
            WellFormedHistory(r) && Evolves(messages, r) && (EndsIn(r, User) ==> r == messages)
  {
  }

  lemma TickHistory(s: State, screen: string, time: int, file: SavedFile)
    requires Tidy(s)
    ensures var t := TickStep(s, screen, time, file);
            if Restores(s, screen, file) then t.chat.messages == file.record.messages
            else && WellFormedHistory(t.chat.messages)
                 && Evolves(s.chat.messages, t.chat.messages)
                 && (EndsIn(t.chat.messages, User) ==> t.chat.messages == s.chat.messages)
                 && (s.chat.writing ==> t.chat.messages == s.chat.messages)
  {
    var text := Rendered(s.cfg, s.boot.load, s.chat.(screens := s.chat.screens + [screen]), screen);
    AgentTextKeepsForm(s.chat.messages, text, time);
  }

  /** A tick keeps the history in form unless it restores one that is not clean. */
  lemma TickKeepsTidy(s: State, screen: string, time: int, file: SavedFile)
    requires Safe(s) && Tidy(s)
    ensures Tidy(TickStep(s, screen, time, file)) <==> LoadsCleanly(s, Tick(screen, time, file))
  {
    TickMail(s, screen, time, file);
    TickHistory(s, screen, time, file);
  }

  /** A step that is not a tick keeps the history, clears it, refreshes it or appends the user's message. */
  lemma ChatStepHistory(s: State, e: Event)
    requires Tidy(s) && MailEnabled(s.mail, e)
    ensures var after := ChatStep(s, e).messages;
            && WellFormedHistory(after)
            && (!e.Clear? ==> Evolves(s.chat.messages, after))
            && (EndsIn(after, User) && !e.FinishOk? ==> after == s.chat.messages)
  {
    if e.BeginWrite? {
      AgentTextKeepsForm(s.chat.messages, Rendered(s.cfg, s.boot.load, s.chat, e.screen), e.time);
    }
  }

  /** The exact condition under which a step keeps the history in form. */
  lemma StepKeepsTidy(s: State, e: Event)
    requires Safe(s) && Tidy(s) && Enabled(s, e)
    ensures Tidy(Step(s, e)) <==> LoadsCleanly(s, e)
  {
    if e.Tick? {
      TickKeepsTidy(s, e.screen, e.time, e.file);
    } else {
      ThreadKeepsTidy(s, e);
    }
  }

  lemma ThreadKeepsTidy(s: State, e: Event)
    requires Safe(s) && Tidy(s) && MailEnabled(s.mail, e) && !e.Tick?
    ensures Tidy(ThreadStep(s, e))
  {
    ChatStepHistory(s, e);
    if e.Send? && SendCheck(s, e.parts).Accepted? {
      AcceptedMeansIdle(s, e.parts);
    } else if e.FinishOk? {
      LastPending(s.mail, s.cfg, s.boot);
    }
  }

  // --------------------------------------------------------------- over runs

  lemma RunPrefix(s: State, es: seq<Event>)
    requires es != [] && Run(s, es).Some?
    ensures var n := |es| - 1;
            && Run(s, es[..n]).Some? && Enabled(Run(s, es[..n]).value, es[n])
            && Run(s, es).value == Step(Run(s, es[..n]).value, es[n])
            && (HarmlessRun(s, es) <==> HarmlessRun(s, es[..n]) && Harmless(Run(s, es[..n]).value, es[n]))
            && (CleanRun(s, es) <==> CleanRun(s, es[..n]) && LoadsCleanly(Run(s, es[..n]).value, es[n]))
  {
  }

  lemma {:induction false} RunKeepsSafe(s: State, es: seq<Event>)
    requires Safe(s) && Run(s, es).Some?
    ensures Safe(Run(s, es).value)
  {
    if es != [] {
      RunPrefix(s, es);
      RunKeepsSafe(s, es[..|es| - 1]);
      StepKeepsSafe(Run(s, es[..|es| - 1]).value, es[|es| - 1]);
    }
  }

  /** The state after each step of the run, and before the first, is signalled. */
  ghost predicate AlwaysSignalled(s: State, es: seq<Event>) {
    && (es != [] ==> AlwaysSignalled(s, es[..|es| - 1]))
    && (Run(s, es).Some? ==> Signalled(Run(s, es).value.mail))
  }

  ghost predicate AlwaysTidy(s: State, es: seq<Event>) {
    && (es != [] ==> AlwaysTidy(s, es[..|es| - 1]))
    && (Run(s, es).Some? ==> Tidy(Run(s, es).value))
  }

  /** Every state of a run agrees on signal, flag and message if and only if every step is harmless. */
  lemma {:induction false} RunKeepsSignalled(s: State, es: seq<Event>)
    requires Safe(s) && Signalled(s.mail) && Run(s, es).Some?
    ensures AlwaysSignalled(s, es) <==> HarmlessRun(s, es)
  {
    if es != [] {
      var before := es[..|es| - 1];
      RunPrefix(s, es);
      RunKeepsSignalled(s, before);
      RunKeepsSafe(s, before);
      if AlwaysSignalled(s, before) {
        StepKeepsSignalled(Run(s, before).value, es[|es| - 1]);
      }
    }
  }

  /** Every history of a run is in form if and only if every restored one is clean. */
  lemma {:induction false} RunKeepsTidy(s: State, es: seq<Event>)
    requires Safe(s) && Tidy(s) && Run(s, es).Some?
    ensures AlwaysTidy(s, es) <==> CleanRun(s, es)
  {
    if es != [] {
      var before := es[..|es| - 1];
      RunPrefix(s, es);
      RunKeepsTidy(s, before);
      RunKeepsSafe(s, before);
      if AlwaysTidy(s, before) {
        StepKeepsTidy(Run(s, before).value, es[|es| - 1]);
      }
    }
  }
}
