/**
 lib/screentracker/pty_conversation.go: the conversation object itself.  Each
 method is one atomic step and is proved to be that step of the state machine
 in PtyModel, with every safety invariant kept.
 */
module PtyConversations {
  import opened Text
  import opened Conversations
  import opened RingBuffers
  import opened PtyModel

  class PTYConversation {
    const cfg: Config
    const snapshotBuffer: RingBuffer<string>
    var prompt: seq<Part>
    var messages: seq<Message>
    var screenBeforeLastUserMessage: string
    var outboundQueue: seq<Outbound>           // a channel of capacity 1
    var stableSignal: bool                     // a channel of capacity 1
    var sendingMessage: bool
    var writingMessage: bool
    var dirty: bool
    var userSentMessageAfterLoadState: bool
    var loadStateStatus: LoadStatus
    var initialPromptReady: bool
    var initialPromptSent: bool

    // the threads: the send loop, the caller of Send, and the error channels between them
    var loop: Loop
    var caller: Caller
    var cancelled: bool
    var tickets: nat
    var answers: seq<Answer>

    ghost var delivered: seq<Option<nat>>
    ghost var promptPushes: nat

    ghost function TheChat(): Chat
      reads this, snapshotBuffer
    {
      Chat(snapshotBuffer.added, messages, screenBeforeLastUserMessage, writingMessage,
           userSentMessageAfterLoadState, dirty)
    }

    ghost function TheBoot(): Boot
      reads this
    {
      Boot(prompt, initialPromptReady, initialPromptSent, loadStateStatus, promptPushes)
    }

    ghost function TheMail(): Mail
      reads this
    {
      Mail(outboundQueue, stableSignal, sendingMessage, loop, caller, cancelled, tickets, answers, delivered)
    }

    ghost function Abs(): State
      reads this, snapshotBuffer
    {
      State(cfg, TheChat(), TheBoot(), TheMail())
    }

    /** The buffer holds `threshold` snapshots; the source panics on anything else. */
    ghost predicate Valid()
      reads this, snapshotBuffer, snapshotBuffer.items
    {
      snapshotBuffer.Valid() && snapshotBuffer.size == cfg.threshold > 0
    }

    constructor (cfg: Config, prompt: seq<Part>, now: int)
      requires cfg.threshold > 0
      ensures Valid() && Abs() == Init(cfg, prompt, now)
      ensures fresh(snapshotBuffer) && fresh(snapshotBuffer.items)
    {
      this.cfg := cfg;
      this.prompt := prompt;
      snapshotBuffer := new RingBuffer(cfg.threshold);
      messages := [Message(0, "", Agent, now)];
      screenBeforeLastUserMessage := "";
      outboundQueue, stableSignal, sendingMessage, writingMessage := [], false, false, false;
      dirty, userSentMessageAfterLoadState, loadStateStatus := false, false, Pending;
      initialPromptReady, initialPromptSent := false, false;
      loop, caller, cancelled, tickets, answers := Idle, Free, false, 0, [];
      delivered, promptPushes := [], 0;
    }

    // ---------------------------------------------------------------- reading

    method LastMessage(role: Role) returns (m: Message)
      ensures m == LastOf(messages, role)
    {
      var i := |messages| - 1;
      assert messages[..|messages|] == messages;
      while i >= 0
        invariant -1 <= i < |messages|
        invariant LastOf(messages, role) == LastOf(messages[..i + 1], role)
      {
        assert messages[..i + 1][..i] == messages[..i];
        if messages[i].role == role {
          return messages[i];
        }
        i := i - 1;
      }
      m := ZERO_MESSAGE;
    }

    method IsScreenStable() returns (stable: bool)
      requires Valid()
      ensures stable == ScreenStable(cfg, TheChat())
    {
      var snapshots := snapshotBuffer.GetAll();
      if |snapshots| < cfg.threshold {
        return false;
      }
      var i := 1;
      while i < |snapshots|
        invariant 1 <= i <= |snapshots|
        invariant forall k :: 0 <= k < i ==> snapshots[k] == snapshots[0]
      {
        if snapshots[0] != snapshots[i] {
          return false;
        }
        i := i + 1;
      }
      stable := true;
    }

    method GetStatus() returns (status: Status)
      requires Valid()
      ensures status == StatusOf(Abs())
    {
      var snapshots := snapshotBuffer.GetAll();
      if |messages| > 0 && messages[|messages| - 1].role == User {
        return Changing;
      }
      if |snapshots| != cfg.threshold {
        return Initializing;
      }
      var stable := IsScreenStable();
      if !stable || !initialPromptReady || |outboundQueue| > 0 || sendingMessage {
        return Changing;
      }
      status := Stable;
    }

    // --------------------------------------------------------------- snapshot

    /** The text of the agent's turn: screen difference, formatting, the hold on a restored text, tool calls. */
    method AgentText(screen: string) returns (agentMessage: string)
      ensures agentMessage == Rendered(cfg, loadStateStatus, TheChat(), screen)
    {
      agentMessage := cfg.diff(screenBeforeLastUserMessage, screen);
      var lastUserMessage := LastMessage(User);
      if cfg.formatMessage.Some? {
        agentMessage := cfg.formatMessage.value(agentMessage, lastUserMessage.text);
      }
      if loadStateStatus == Succeeded && !userSentMessageAfterLoadState && EndsIn(messages, Agent) {
        agentMessage := messages[|messages| - 1].text;
      }
      if cfg.formatToolCall.Some? {
        agentMessage := cfg.formatToolCall.value(agentMessage);
      }
    }

    method UpdateLastAgentMessage(screen: string, timestamp: int)
      modifies this`messages, this`dirty
      ensures TheChat() == Update(cfg, loadStateStatus, old(TheChat()), screen, timestamp)
    {
      if writingMessage {
        return;
      }
      var agentMessage := AgentText(screen);
      var shouldCreateNewMessage := messages == [] || EndsIn(messages, User);
      var lastAgentMessage := LastMessage(Agent);
      if lastAgentMessage.text == agentMessage {
        return;
      }
      NewTextShows(messages, agentMessage, timestamp);
      if shouldCreateNewMessage {
        messages := messages + [Message(0, agentMessage, Agent, timestamp)];
      } else {
        messages := messages[..|messages| - 1] + [Message(0, agentMessage, Agent, timestamp)];
      }
      messages := messages[|messages| - 1 := messages[|messages| - 1].(id := |messages| - 1)];
      assert messages == WithAgentText(old(messages), agentMessage, timestamp);
      dirty := true;
    }

    method Snapshot(screen: string, timestamp: int)
      requires Valid()
      modifies this`messages, this`dirty, snapshotBuffer, snapshotBuffer.items
      ensures Valid() && snapshotBuffer.items == old(snapshotBuffer.items)
      ensures Abs() == Observe(old(Abs()), screen, timestamp)
    {
      snapshotBuffer.Add(screen);
      UpdateLastAgentMessage(screen, timestamp);
    }

    /** Returns whether restoring failed, and whether the user is told: a missing file is not reported. */
    method LoadState(file: SavedFile) returns (failed: bool, shouldEmit: bool)
      requires cfg.loadState && loadStateStatus == Pending && initialPromptReady
      modifies this`messages, this`dirty, this`prompt, this`initialPromptSent
      ensures failed == !(file.Saved? && file.record.version == 1)
      ensures shouldEmit == (failed && !file.Missing?)
      ensures failed ==> unchanged(this)
      ensures !failed ==>
        var r := file.record;
        && messages == r.messages && !dirty
        && prompt == (if old(prompt) == [] && r.prompt != "" then [Part(r.prompt, "", false)] else old(prompt))
        && initialPromptSent == (r.promptSent && (old(prompt) == [] || ShownText(old(prompt)) == r.prompt))
    {
      match file {
        case Missing => return true, false;
        case Unreadable => return true, true;
        case Corrupt => return true, true;
        case Saved(record) =>
          if record.version != 1 {
            return true, true;
          }
          initialPromptSent := record.promptSent;
          if |prompt| > 0 {
            if ShownText(prompt) != record.prompt {
              initialPromptSent := false;
            }
          } else if record.prompt != "" {
            prompt := [Part(record.prompt, "", false)];
          }
          messages := record.messages;
          dirty := false;
          return false, false;
      }
    }

    /**
     One run of the ticker; what it emits was read before it acted on
     readiness.  It must not be called where its push would block: no
     reachable state is such (PtyTheorems.PromptPushNeverBlocks).
     */
    method Tick(screen: string, now: int, file: SavedFile)
      returns (status: Status, emitted: seq<Message>, warned: bool)
      requires Valid() && !TickBlocks(Abs(), screen, file)
      modifies this, snapshotBuffer, snapshotBuffer.items
      ensures Valid() && snapshotBuffer.items == old(snapshotBuffer.items)
      ensures Abs() == TickStep(old(Abs()), screen, now, file)
      ensures status == StatusOf(Observe(old(Abs()), screen, now))
      ensures emitted == TickEmits(old(Abs()), screen, now)
      ensures warned == (AttemptsLoad(old(Abs()), screen) && !Restores(old(Abs()), screen, file) && !file.Missing?)
    {
      Snapshot(screen, now);
      status := GetStatus();
      emitted := messages;
      warned := PrepareAgent(screen, file);
      PushAndSignal();
    }

    /** The readiness test and the one attempt to restore. */
    method PrepareAgent(screen: string, file: SavedFile) returns (warned: bool)
      modifies this`messages, this`dirty, this`prompt, this`initialPromptSent, this`initialPromptReady, this`loadStateStatus
      ensures Abs() == Prepare(old(Abs()), screen, file)
      ensures warned == (AttemptsLoad(old(Abs()), screen) && !Restores(old(Abs()), screen, file) && !file.Missing?)
    {
      if !initialPromptReady && cfg.readyForPrompt(screen) {
        initialPromptReady := true;
      }
      warned := RestoreOnce(file);
    }

    method RestoreOnce(file: SavedFile) returns (warned: bool)
      modifies this`messages, this`dirty, this`prompt, this`initialPromptSent, this`loadStateStatus
      ensures var attempts := initialPromptReady && old(loadStateStatus) == Pending && cfg.loadState;
        var restores := attempts && file.Saved? && file.record.version == 1;
        && (!attempts ==> unchanged(this))
        && (attempts && !restores ==> TheBoot() == old(TheBoot()).(load := Failed) && TheChat() == old(TheChat()))
        && (restores ==>
              && TheBoot() == Restored(old(TheBoot()), file.record)
              && TheChat() == old(TheChat()).(messages := file.record.messages, dirty := false))
        && warned == (attempts && !restores && !file.Missing?)
    {
      warned := false;
      if initialPromptReady && loadStateStatus == Pending && cfg.loadState {
        var failed, shouldEmit := LoadState(file);
        if failed {
          loadStateStatus := Failed;
          warned := shouldEmit;
        } else {
          loadStateStatus := Succeeded;
        }
      }
    }

    method PushAndSignal()
      requires Valid()
      requires PushesPrompt(TheBoot()) ==> |outboundQueue| < 1
      modifies this`outboundQueue, this`initialPromptSent, this`dirty, this`promptPushes, this`stableSignal, this`sendingMessage
      ensures Abs() == Enqueue(old(Abs()))
    {
      PushInitialPrompt();
      RaiseStableSignal();
    }

    /** The push happens with the lock held: it must find room in the queue. */
    method PushInitialPrompt()
      requires PushesPrompt(TheBoot()) ==> |outboundQueue| < 1
      modifies this`outboundQueue, this`initialPromptSent, this`dirty, this`promptPushes
      ensures var pushes := PushesPrompt(old(TheBoot()));
        && TheBoot() == old(TheBoot()).(promptSent := old(initialPromptSent) || pushes,
                                        pushes := old(promptPushes) + if pushes then 1 else 0)
        && outboundQueue == old(outboundQueue) + (if pushes then [Outbound(old(prompt), None)] else [])
        && dirty == (old(dirty) || pushes)
    {
      if initialPromptReady && |prompt| > 0 && !initialPromptSent {
        outboundQueue := outboundQueue + [Outbound(prompt, None)];
        initialPromptSent := true;
        dirty := true;
        promptPushes := promptPushes + 1;
      } else {
        assert outboundQueue + [] == outboundQueue;
      }
    }

    method RaiseStableSignal()
      requires Valid()
      modifies this`stableSignal, this`sendingMessage
      ensures TheMail() == RaiseSignal(old(TheMail()), initialPromptReady && ScreenStable(cfg, TheChat()))
    {
      var stable := IsScreenStable();
      if initialPromptReady && |outboundQueue| > 0 && stable && !stableSignal {
        stableSignal, sendingMessage := true, true;
      }
    }

    // ------------------------------------------------------------------- Send

    /** What Send decides before it queues anything. */
    method Validate(parts: seq<Part>) returns (result: SendResult)
      requires Valid()
      ensures result == SendCheck(Abs(), parts)
    {
      var text := ShownText(parts);
      if text != Trim(text, IsWhiteSpaceChar) {
        return WhitespaceError;
      }
      if text == "" {
        return EmptyError;
      }
      var status := GetStatus();
      result := if status != Stable then ChangingError else Accepted;
    }

    /** The checks of Send, up to the release of the lock. */
    method Send(parts: seq<Part>) returns (result: SendResult)
      requires Valid() && MailEnabled(TheMail(), Event.Send(parts))
      modifies this
      ensures Valid() && Abs() == ThreadStep(old(Abs()), Event.Send(parts))
      ensures result == SendCheck(old(Abs()), parts)
    {
      result := Validate(parts);
      if result.Accepted? {
        caller := Checked(parts);
      }
    }

    /** The caller of Send queues its message with an error channel and waits on it. */
    method Push()
      requires Valid() && MailEnabled(TheMail(), Event.Push)
      modifies this
      ensures Valid() && Abs() == ThreadStep(old(Abs()), Event.Push)
    {
      outboundQueue := outboundQueue + [Outbound(caller.parts, Some(tickets))];
      tickets := tickets + 1;
      caller := Waiting;
    }

    method Collect()
      requires Valid() && MailEnabled(TheMail(), Event.Collect)
      modifies this
      ensures Valid() && Abs() == ThreadStep(old(Abs()), Event.Collect)
    {
      caller := Free;
    }

    // -------------------------------------------------------------- send loop

    method RecvSignal()
      requires Valid() && MailEnabled(TheMail(), Event.RecvSignal)
      modifies this
      ensures Valid() && Abs() == ThreadStep(old(Abs()), Event.RecvSignal)
    {
      stableSignal := false;
      loop := GotSignal;
    }

    /** The inner select: take the queued message, or find the queue empty and log an error. */
    method RecvMessage()
      requires Valid() && MailEnabled(TheMail(), Event.RecvMessage)
      modifies this
      ensures Valid() && Abs() == ThreadStep(old(Abs()), Event.RecvMessage)
    {
      if |outboundQueue| == 0 {
        loop := Idle;
      } else {
        loop := Taken(outboundQueue[0]);
        outboundQueue := outboundQueue[1..];
      }
    }

    /** sendMessage up to the release of the lock before writeStabilize. */
    method BeginWrite(screen: string, now: int)
      requires Valid() && MailEnabled(TheMail(), Event.BeginWrite(screen, now))
      modifies this
      ensures Valid() && Abs() == ThreadStep(old(Abs()), Event.BeginWrite(screen, now))
    {
      UpdateLastAgentMessage(screen, now);
      writingMessage := true;
      loop := Writing(loop.msg, screen, now);
    }

    method AppendUserMessage()
      requires loop.Writing?
      modifies this`screenBeforeLastUserMessage, this`messages, this`userSentMessageAfterLoadState, this`writingMessage
      ensures TheChat() == ChatStep(old(Abs()), Event.FinishOk)
    {
      screenBeforeLastUserMessage := loop.screen;
      messages := messages + [Message(|messages|, ShownText(loop.msg.parts), User, loop.time)];
      userSentMessageAfterLoadState := true;
      writingMessage := false;
    }

    method NoteDelivery()
      requires loop.Writing?
      modifies this`delivered, this`loop
      ensures TheMail() == MailStep(old(TheMail()), Event.FinishOk, false)
    {
      delivered := delivered + [loop.msg.ticket];
      loop := Returned(loop.msg, true);
    }

    /** sendMessage after writeStabilize succeeded. */
    method FinishOk()
      requires Valid() && MailEnabled(TheMail(), Event.FinishOk)
      modifies this
      ensures Valid() && Abs() == ThreadStep(old(Abs()), Event.FinishOk)
    {
      AppendUserMessage();
      assert TheMail() == old(TheMail());
      NoteDelivery();
    }

    method FinishError()
      requires Valid() && MailEnabled(TheMail(), Event.FinishError)
      modifies this
      ensures Valid() && Abs() == ThreadStep(old(Abs()), Event.FinishError)
    {
      writingMessage := false;
      loop := Returned(loop.msg, false);
    }

    method ClearFlag()
      requires Valid() && MailEnabled(TheMail(), Event.ClearFlag)
      modifies this
      ensures Valid() && Abs() == ThreadStep(old(Abs()), Event.ClearFlag)
    {
      sendingMessage := false;
      loop := Cleared(loop.msg, loop.ok);
    }

    method Reply()
      requires Valid() && MailEnabled(TheMail(), Event.Reply)
      modifies this
      ensures Valid() && Abs() == ThreadStep(old(Abs()), Event.Reply)
    {
      if loop.msg.ticket.Some? {
        answers := answers + [Answer(loop.msg.ticket.value, if loop.ok then Delivered else NotDelivered)];
      }
      loop := Idle;
      assert old(answers) + [] == old(answers);
    }

    method Cancel()
      requires Valid() && MailEnabled(TheMail(), Event.Cancel)
      modifies this
      ensures Valid() && Abs() == ThreadStep(old(Abs()), Event.Cancel)
    {
      cancelled := true;
    }

    method Exit()
      requires Valid() && MailEnabled(TheMail(), Event.Exit)
      modifies this
      ensures Valid() && Abs() == ThreadStep(old(Abs()), Event.Exit)
    {
      loop := Draining;
    }

    method Drain()
      requires Valid() && MailEnabled(TheMail(), Event.Drain)
      modifies this
      ensures Valid() && Abs() == ThreadStep(old(Abs()), Event.Drain)
    {
      var msg := outboundQueue[0];
      outboundQueue := outboundQueue[1..];
      if msg.ticket.Some? {
        answers := answers + [Answer(msg.ticket.value, Outcome.Cancelled)];
      }
      assert old(answers) + [] == old(answers);
    }

    method EndDrain()
      requires Valid() && MailEnabled(TheMail(), Event.EndDrain)
      modifies this
      ensures Valid() && Abs() == ThreadStep(old(Abs()), Event.EndDrain)
    {
      loop := Exited;
    }

    // ------------------------------------------------------ clearing and saving

    method ClearMessages()
      requires Valid() && MailEnabled(TheMail(), Event.Clear)
      modifies this
      ensures Valid() && Abs() == ThreadStep(old(Abs()), Event.Clear)
    {
      messages := [];
    }

    /**
     The state file before and after: only the rename, which comes last,
     touches it, so a failure on the way leaves the file and the conversation
     as they were, and what was to be saved still to be saved.
     */
    method SaveState(file: SavedFile, fault: Option<SaveFault>) returns (error: Option<SaveFault>, after: SavedFile)
      requires Valid()
      modifies this`dirty
      ensures Valid() && Abs() == ThreadStep(old(Abs()), Event.Save(fault))
      ensures SavedRecord(old(Abs())).None? ==> error == None && after == file && dirty == old(dirty)
      ensures SavedRecord(old(Abs())).Some? ==> error == fault
      ensures SavedRecord(old(Abs())).Some? && fault.None? ==> after == Saved(SavedRecord(old(Abs())).value) && !dirty
      ensures SavedRecord(old(Abs())).Some? && fault.Some? ==>
        after == file && SavedRecord(Abs()) == SavedRecord(old(Abs()))
    {
      if !cfg.saveState || !dirty {
        return None, file;
      }
      var record := Record(1, messages, ShownText(prompt), initialPromptSent);
      if fault.Some? {
        return fault, file;
      }
      dirty := false;
      return None, Saved(record);
    }

    // ------------------------------------------------------------------- runs

    /** Whatever the scheduler picks next is a step of the state machine. */
    method Perform(e: Event)
      requires Valid() && Enabled(Abs(), e)
      modifies this, snapshotBuffer, snapshotBuffer.items
      ensures Valid() && snapshotBuffer.items == old(snapshotBuffer.items)
      ensures Abs() == Step(old(Abs()), e)
    {
      if e.Tick? {
        var _, _, _ := Tick(e.screen, e.time, e.file);
      } else {
        PerformThread(e);
      }
    }

    method PerformThread(e: Event)
      requires Valid() && MailEnabled(TheMail(), e) && !e.Tick?
      modifies this
      ensures Valid() && Abs() == ThreadStep(old(Abs()), e)
    {
      match e
      case Send(parts) => var _ := Send(parts);
      case Push => Push();
      case Collect => Collect();
      case RecvSignal => RecvSignal();
      case RecvMessage => RecvMessage();
      case BeginWrite(screen, time) => BeginWrite(screen, time);
      case FinishOk => FinishOk();
      case FinishError => FinishError();
      case ClearFlag => ClearFlag();
      case Reply => Reply();
      case Cancel => Cancel();
      case Exit => Exit();
      case Drain => Drain();
      case EndDrain => EndDrain();
      case Clear => ClearMessages();
      case Save(fault) => var _, _ := SaveState(Missing, fault);
    }

    /** The object follows any run of the state machine. */
    method Follow(es: seq<Event>)
      requires Valid() && Run(Abs(), es).Some?
      modifies this, snapshotBuffer, snapshotBuffer.items
      ensures Valid() && Run(old(Abs()), es) == Some(Abs())
    {
      ghost var s0 := Abs();
      var i := 0;
      while i < |es|
        invariant 0 <= i <= |es|
        invariant Valid() && snapshotBuffer.items == old(snapshotBuffer.items)
        invariant Run(s0, es[..i]) == Some(Abs())
      {
        RunReaches(s0, es, i);
        Perform(es[i]);
        i := i + 1;
      }
      assert es[..i] == es;
    }
  }

  /** A text that is not the last agent's yet changes the history. */
  lemma NewTextShows(messages: seq<Message>, text: string, time: int)
    requires LastOf(messages, Agent).text != text
    ensures WithAgentText(messages, text, time) != messages
  {
    var r := WithAgentText(messages, text, time);
    if |r| == |messages| {
      assert r[|r| - 1].role == Agent && r[|r| - 1].text == text;
    }
  }

  /** What a run does next is enabled, and leads to its next state. */
  lemma {:induction false} RunReaches(s0: State, es: seq<Event>, i: nat)
    requires i < |es| && Run(s0, es).Some?
    ensures Run(s0, es[..i]).Some? && Enabled(Run(s0, es[..i]).value, es[i])
    ensures Run(s0, es[..i + 1]) == Some(Step(Run(s0, es[..i]).value, es[i]))
    decreases |es|
  {
    var n := |es| - 1;
    if i < n {
      RunReaches(s0, es[..n], i);
      assert es[..n][..i] == es[..i] && es[..n][..i + 1] == es[..i + 1];
    } else {
      assert es[..i + 1] == es;
    }
  }
}
