/**
 The PTY conversation protocol of lib/screentracker/pty_conversation.go as a
 state machine.  Each event is one atomic step of the program: a critical
 section, a channel operation, or an action of the outside world.  The two
 goroutines and the HTTP caller interleave freely at these points.
 */
module PtyModel {
  import opened Text
  import opened Conversations

  datatype Config = Config(
    threshold: nat,                                          // stable snapshots required
    diff: (string, string) -> string,                        // screenDiff for the agent type
    formatMessage: Option<(string, string) -> string>,
    formatToolCall: Option<string -> string>,                // the text left by the formatter
    readyForPrompt: string -> bool,
    loadState: bool,
    saveState: bool)

  datatype LoadStatus = Pending | Succeeded | Failed

  /** The saved record, and what opening and decoding its file can give. */
  datatype Record = Record(version: int, messages: seq<Message>, prompt: string, promptSent: bool)
  datatype SavedFile = Missing | Unreadable | Corrupt | Saved(record: Record)

  /** The operation that fails while a record is written to a temporary file and that file renamed. */
  datatype SaveFault = MkdirAll | OpenFile | Encode | Sync | Close | Rename

  /** A queued message; the initial prompt has no error channel, hence no ticket. */
  datatype Outbound = Outbound(parts: seq<Part>, ticket: Option<nat>)

  datatype Outcome = Delivered | NotDelivered | Cancelled
  datatype Answer = Answer(ticket: nat, outcome: Outcome)

  /** Where the send loop stands. */
  datatype Loop =
    | Idle
    | GotSignal
    | Taken(msg: Outbound)
    | Writing(msg: Outbound, screen: string, time: int)
    | Returned(msg: Outbound, ok: bool)
    | Cleared(msg: Outbound, ok: bool)
    | Draining
    | Exited
  {
    predicate Live() { !Draining? && !Exited? }
    predicate Sending() { Taken? || Writing? || Returned? }
    predicate Holds() { Taken? || Writing? || Returned? || Cleared? }
  }

  /** Where the one caller of Send that the HTTP layer admits stands. */
  datatype Caller = Free | Checked(parts: seq<Part>) | Waiting

  /** What the conversation shows: changed by ticks, by finished writes and by clears. */
  datatype Chat = Chat(
    screens: seq<string>,         // every screen a tick has read
    messages: seq<Message>,
    screenBefore: string,
    writing: bool,
    userSent: bool,
    dirty: bool)

  /** Start-up: changed by ticks only. */
  datatype Boot = Boot(
    prompt: seq<Part>,
    ready: bool,
    promptSent: bool,
    load: LoadStatus,
    pushes: nat)                  // times the initial prompt was queued

  /** The two channels, the flag beside them, and the two threads at their ends. */
  datatype Mail = Mail(
    queue: seq<Outbound>,
    signal: bool,
    sending: bool,
    loop: Loop,
    caller: Caller,
    cancelled: bool,
    tickets: nat,                 // error channels handed out so far
    answers: seq<Answer>,         // errors sent on them, in order
    delivered: seq<Option<nat>>)  // tickets of the user messages appended, in order

  datatype State = State(cfg: Config, chat: Chat, boot: Boot, mail: Mail)

  datatype Event =
    | Tick(screen: string, time: int, file: SavedFile)
    | Send(parts: seq<Part>)
    | Push
    | Collect
    | RecvSignal
    | RecvMessage
    | BeginWrite(screen: string, time: int)
    | FinishOk
    | FinishError
    | ClearFlag
    | Reply
    | Cancel
    | Exit
    | Drain
    | EndDrain
    | Clear
    | Save(fault: Option<SaveFault>)

  function Init(cfg: Config, prompt: seq<Part>, now: int): State {
    State(cfg,
          Chat([], [Message(0, "", Agent, now)], "", false, false, false),
          Boot(prompt, false, false, Pending, 0),
          Mail([], false, false, Idle, Free, false, 0, [], []))
  }

  // ------------------------------------------------------- screen and status

  /** Go's integer division truncates toward zero. */
  function TruncDiv(a: int, b: int): int
    requires b > 0
  {
    if a >= 0 then a / b else -((-a) / b)
  }

  /**
   Snapshots, one every `interval` ms, that span a stability length of
   `length` ms.  An interval under a millisecond divides by zero in the source.
   */
  function StableSnapshotsThreshold(length: int, interval: int): int
    requires interval > 0
  {
    var quotient := TruncDiv(length, interval);
    var remainder := length - quotient * interval;
    (if remainder != 0 then quotient + 1 else quotient) + 1
  }

  /** The least number of snapshots that spans the length. */
  lemma ThresholdSpans(length: int, interval: int)
    requires interval > 0 && length >= 0
    ensures var threshold := StableSnapshotsThreshold(length, interval);
      && (length == 0 ==> threshold == 1)
      && (length > 0 ==> threshold >= 2 && (threshold - 1) * interval >= length > (threshold - 2) * interval)
  {
    var quotient := length / interval;
    assert length == quotient * interval + length % interval;
    assert (quotient - 1) * interval == quotient * interval - interval;
    assert (quotient + 1) * interval == quotient * interval + interval;
  }

  function Snapshots(cfg: Config, chat: Chat): seq<string> {
    LastN(chat.screens, cfg.threshold)
  }

  predicate AllSame(screens: seq<string>) {
    forall i :: 0 <= i < |screens| ==> screens[i] == screens[0]
  }

  predicate ScreenStable(cfg: Config, chat: Chat) {
    |Snapshots(cfg, chat)| >= cfg.threshold && AllSame(Snapshots(cfg, chat))
  }

  function StatusOf(s: State): Status {
    if EndsIn(s.chat.messages, User) then Changing
    else if |Snapshots(s.cfg, s.chat)| != s.cfg.threshold then Initializing
    else if !ScreenStable(s.cfg, s.chat) || !s.boot.ready || s.mail.queue != [] || s.mail.sending then Changing
    else Stable
  }

  /** The agent text a screen stands for. */
  function Rendered(cfg: Config, load: LoadStatus, chat: Chat, screen: string): string {
    var shown := cfg.diff(chat.screenBefore, screen);
    var formatted := match cfg.formatMessage
      case None => shown
      case Some(f) => f(shown, LastOf(chat.messages, User).text);
    var kept :=
      if load.Succeeded? && !chat.userSent && EndsIn(chat.messages, Agent)
      then chat.messages[|chat.messages| - 1].text else formatted;
    match cfg.formatToolCall
    case None => kept
    case Some(f) => f(kept)
  }

  /** The history with the agent's turn reading `text`. */
  function WithAgentText(messages: seq<Message>, text: string, time: int): seq<Message> {
    if LastOf(messages, Agent).text == text then messages
    else if messages == [] || EndsIn(messages, User) then
      messages + [Message(|messages|, text, Agent, time)]
    else
      var n := |messages| - 1;
      messages[..n] + [Message(n, text, Agent, time)]
  }

  /** updateLastAgentMessageLocked. */
  function Update(cfg: Config, load: LoadStatus, chat: Chat, screen: string, time: int): Chat {
    if chat.writing then chat
    else
      var messages := WithAgentText(chat.messages, Rendered(cfg, load, chat, screen), time);
      chat.(messages := messages, dirty := chat.dirty || messages != chat.messages)
  }

  // ------------------------------------------------------- the snapshot tick

  /** snapshotLocked: remember the screen, then bring the last agent message up to date. */
  function Observe(s: State, screen: string, time: int): State {
    var chat := s.chat.(screens := s.chat.screens + [screen]);
    s.(chat := Update(s.cfg, s.boot.load, chat, screen, time))
  }

  /** loadStateLocked, attempted by the first tick that finds the agent ready. */
  predicate AttemptsLoad(s: State, screen: string) {
    (s.boot.ready || s.cfg.readyForPrompt(screen)) && s.boot.load.Pending? && s.cfg.loadState
  }

  predicate Restores(s: State, screen: string, file: SavedFile) {
    AttemptsLoad(s, screen) && file.Saved? && file.record.version == 1
  }

  /** Start-up state restored from a record. */
  function Restored(boot: Boot, r: Record): Boot {
    Boot(if boot.prompt == [] && r.prompt != "" then [Part(r.prompt, "", false)] else boot.prompt,
         true,
         r.promptSent && (boot.prompt == [] || ShownText(boot.prompt) == r.prompt),
         Succeeded,
         boot.pushes)
  }

  /** Start-up state after the readiness test and the attempt to restore. */
  function Booted(s: State, screen: string, file: SavedFile): Boot {
    var boot := s.boot.(ready := s.boot.ready || s.cfg.readyForPrompt(screen));
    if !AttemptsLoad(s, screen) then boot
    else if !Restores(s, screen, file) then boot.(load := Failed)
    else Restored(boot, file.record)
  }

  predicate PushesPrompt(boot: Boot) {
    boot.ready && boot.prompt != [] && !boot.promptSent
  }

  /** A signal already pending is left alone. */
  function RaiseSignal(mail: Mail, stable: bool): Mail {
    if mail.queue != [] && stable && !mail.signal then mail.(signal := true, sending := true) else mail
  }

  /** The readiness test and the attempt to restore. */
  function Prepare(s: State, screen: string, file: SavedFile): State {
    s.(boot := Booted(s, screen, file),
       chat := if Restores(s, screen, file) then s.chat.(messages := file.record.messages, dirty := false) else s.chat)
  }

  /** Queue the initial prompt, once, and wake the send loop when there is something to send. */
  function Enqueue(s: State): State {
    var pushes := PushesPrompt(s.boot);
    var queue := s.mail.queue + if pushes then [Outbound(s.boot.prompt, None)] else [];
    State(s.cfg,
          s.chat.(dirty := s.chat.dirty || pushes),
          s.boot.(promptSent := s.boot.promptSent || pushes, pushes := s.boot.pushes + if pushes then 1 else 0),
          RaiseSignal(s.mail.(queue := queue), s.boot.ready && ScreenStable(s.cfg, s.chat)))
  }

  function TickStep(s: State, screen: string, time: int, file: SavedFile): State {
    Enqueue(Prepare(Observe(s, screen, time), screen, file))
  }

  /** The list a tick hands to EmitMessages: taken before readiness, restoring and the prompt. */
  function TickEmits(s: State, screen: string, time: int): seq<Message> {
    Observe(s, screen, time).chat.messages
  }

  /** Pushing the prompt would block, with the lock held, when the queue is full. */
  predicate TickBlocks(s: State, screen: string, file: SavedFile) {
    PushesPrompt(Booted(s, screen, file)) && |s.mail.queue| >= 1
  }

  // ------------------------------------------------------------------- Send

  datatype SendResult = WhitespaceError | EmptyError | ChangingError | Accepted

  function SendCheck(s: State, parts: seq<Part>): SendResult {
    var text := ShownText(parts);
    if text != Trim(text, IsWhiteSpaceChar) then WhitespaceError
    else if text == "" then EmptyError
    else if StatusOf(s) != Stable then ChangingError
    else Accepted
  }

  // --------------------------------------------------------------- one step

  predicate MailEnabled(m: Mail, e: Event) {
    match e
    case Tick(_, _, _) => true
    case Send(_) => m.caller.Free?
    case Push => m.caller.Checked? && |m.queue| < 1
    case Collect => m.caller.Waiting? && |m.answers| == m.tickets
    case RecvSignal => m.loop.Idle? && m.signal
    case RecvMessage => m.loop.GotSignal?
    case BeginWrite(_, _) => m.loop.Taken?
    case FinishOk => m.loop.Writing?
    case FinishError => m.loop.Writing?
    case ClearFlag => m.loop.Returned?
    case Reply => m.loop.Cleared?
    case Cancel => true
    case Exit => m.cancelled && (m.loop.Idle? || m.loop.GotSignal?)
    case Drain => m.loop.Draining? && m.queue != []
    case EndDrain => m.loop.Draining? && m.queue == []
    case Clear => true
    case Save(_) => true
  }

  predicate Enabled(s: State, e: Event) {
    MailEnabled(s.mail, e) && (e.Tick? ==> !TickBlocks(s, e.screen, e.file))
  }

  function Answered(msg: Outbound, outcome: Outcome): seq<Answer> {
    match msg.ticket
    case None => []
    case Some(t) => [Answer(t, outcome)]
  }

  /** The channels and threads after an event other than a tick; `accepted` is the verdict on a Send. */
  function MailStep(m: Mail, e: Event, accepted: bool): Mail
    requires MailEnabled(m, e)
  {
    match e
    case Tick(_, _, _) => m
    case Send(parts) => if accepted then m.(caller := Checked(parts)) else m
    case Push =>
      m.(queue := m.queue + [Outbound(m.caller.parts, Some(m.tickets))], tickets := m.tickets + 1, caller := Waiting)
    case Collect => m.(caller := Free)
    case RecvSignal => m.(signal := false, loop := GotSignal)
    case RecvMessage =>
      if m.queue == [] then m.(loop := Idle)  // "outbound queue is empty"
      else m.(queue := m.queue[1..], loop := Taken(m.queue[0]))
    case BeginWrite(screen, time) => m.(loop := Writing(m.loop.msg, screen, time))
    case FinishOk => m.(loop := Returned(m.loop.msg, true), delivered := m.delivered + [m.loop.msg.ticket])
    case FinishError => m.(loop := Returned(m.loop.msg, false))
    case ClearFlag => m.(sending := false, loop := Cleared(m.loop.msg, m.loop.ok))
    case Reply =>
      m.(answers := m.answers + Answered(m.loop.msg, if m.loop.ok then Delivered else NotDelivered), loop := Idle)
    case Cancel => m.(cancelled := true)
    case Exit => m.(loop := Draining)
    case Drain => m.(queue := m.queue[1..], answers := m.answers + Answered(m.queue[0], Cancelled))
    case EndDrain => m.(loop := Exited)
    case Clear => m
    case Save(_) => m
  }

  /** The conversation after an event other than a tick. */
  function ChatStep(s: State, e: Event): Chat
    requires MailEnabled(s.mail, e)
  {
    match e
    case BeginWrite(screen, time) => Update(s.cfg, s.boot.load, s.chat, screen, time).(writing := true)
    case FinishOk =>
      var w := s.mail.loop;
      s.chat.(screenBefore := w.screen,
              messages := s.chat.messages + [Message(|s.chat.messages|, ShownText(w.msg.parts), User, w.time)],
              userSent := true, writing := false)
    case FinishError => s.chat.(writing := false)
    case Clear => s.chat.(messages := [])
    case Save(fault) => if s.cfg.saveState && fault.None? then s.chat.(dirty := false) else s.chat
    case _ => s.chat
  }

  /** Any event but a tick. */
  function ThreadStep(s: State, e: Event): State
    requires MailEnabled(s.mail, e)
  {
    var accepted := e.Send? && SendCheck(s, e.parts).Accepted?;
    s.(chat := ChatStep(s, e), mail := MailStep(s.mail, e, accepted))
  }

  function Step(s: State, e: Event): State
    requires Enabled(s, e)
  {
    if e.Tick? then TickStep(s, e.screen, e.time, e.file) else ThreadStep(s, e)
  }

  /** The record SaveState writes, when it writes one. */
  function SavedRecord(s: State): Option<Record> {
    if !s.cfg.saveState || !s.chat.dirty then None
    else Some(Record(1, s.chat.messages, ShownText(s.boot.prompt), s.boot.promptSent))
  }

  // ------------------------------------------------------------------- runs

  /** The state after a run, or None when some event of it could not happen. */
  function Run(s: State, es: seq<Event>): Option<State> {
    if es == [] then Some(s)
    else match Run(s, es[..|es| - 1])
      case None => None
      case Some(mid) =>
        var e := es[|es| - 1];
        if Enabled(mid, e) then Some(Step(mid, e)) else None
  }

  lemma RunSnoc(s0: State, es: seq<Event>, s: State, e: Event)
    requires Run(s0, es) == Some(s) && Enabled(s, e)
    ensures Run(s0, es + [e]) == Some(Step(s, e))
  {
    assert (es + [e])[..|es|] == es;
  }

  /** A tick between the send loop's two receives must not find the screen stable: it would signal again. */
  predicate Harmless(s: State, e: Event) {
    e.Tick? && s.mail.loop.GotSignal? ==> !ScreenStable(s.cfg, Observe(s, e.screen, e.time).chat)
  }

  /** A restored history is well formed, and no prompt is queued behind an unanswered user message. */
  ghost predicate LoadsCleanly(s: State, e: Event) {
    e.Tick? && Restores(s, e.screen, e.file) ==>
      var messages := e.file.record.messages;
      WellFormedHistory(messages)
      && (PushesPrompt(Booted(s, e.screen, e.file)) ==> !EndsIn(messages, User))
  }

  /** Every step of the run is harmless. */
  ghost predicate HarmlessRun(s: State, es: seq<Event>) {
    es == [] ||
    var before := es[..|es| - 1];
    HarmlessRun(s, before) && (Run(s, before).Some? ==> Harmless(Run(s, before).value, es[|es| - 1]))
  }

  /** Every history the run restores is clean. */
  ghost predicate CleanRun(s: State, es: seq<Event>) {
    es == [] ||
    var before := es[..|es| - 1];
    CleanRun(s, before) && (Run(s, before).Some? ==> LoadsCleanly(Run(s, before).value, es[|es| - 1]))
  }
}
