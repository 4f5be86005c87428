/**
 x/acpio/acp_conversation.go: the conversation of an agent that streams its
 answer in chunks.  `Step` is one locked section of the source; the class
 below performs it on the fields.
 */
module AcpConversations {
  import opened Text
  import opened Conversations

  datatype State = State(messages: seq<Message>, nextID: nat, prompting: bool, streaming: string)

  datatype Event =
    | Send(parts: seq<Part>, asked: int, answering: int)
    | Chunk(text: string)
    | Finish(ok: bool)     // the prompt returned, or failed
    | Clear

  datatype SendResult = WhitespaceError | EmptyError | ChangingError | Accepted

  const INIT := State([], 0, false, "")

  /** Unlike the terminal's conversation, this one trims all Unicode white space. */
  function SendCheck(s: State, parts: seq<Part>): SendResult {
    var message := ShownText(parts);
    if message != TrimSpace(message) then WhitespaceError
    else if message == "" then EmptyError
    else if s.prompting then ChangingError
    else Accepted
  }

  /** The history with a last agent message that reads `text`. */
  function Retold(messages: seq<Message>, text: string): seq<Message> {
    if !EndsIn(messages, Agent) then messages
    else
      var n := |messages| - 1;
      messages[..n] + [messages[n].(text := text)]
  }

  function WithoutAnswer(messages: seq<Message>): seq<Message> {
    if EndsIn(messages, Agent) then messages[..|messages| - 1] else messages
  }

  /** A user message and the placeholder of its answer. */
  function Asked(id: int, text: string, asked: int, answering: int): seq<Message> {
    [Message(id, text, User, asked), Message(id + 1, "", Agent, answering)]
  }

  /** A prompt is under way exactly while `prompting` holds: only then can it finish. */
  predicate Enabled(s: State, e: Event) {
    e.Finish? ==> s.prompting
  }

  function Sent(s: State, text: string, asked: int, answering: int): State {
    State(s.messages + Asked(s.nextID, text, asked, answering), s.nextID + 2, true, "")
  }

  function Step(s: State, e: Event): State
    requires Enabled(s, e)
  {
    match e
    case Send(parts, asked, answering) =>
      if SendCheck(s, parts).Accepted? then Sent(s, ShownText(parts), asked, answering) else s
    case Chunk(text) =>
      if s.prompting then s.(streaming := s.streaming + text, messages := Retold(s.messages, s.streaming + text)) else s
    case Finish(ok) =>
      s.(messages := if ok then Retold(s.messages, s.streaming) else WithoutAnswer(s.messages), prompting := false)
    case Clear => s.(messages := [], nextID := 0, streaming := "")
  }

  /** The state after a run, or None when some event of it could not happen. */
  function Run(s: State, es: seq<Event>): Option<State> {
    if es == [] then Some(s)
    else match Run(s, es[..|es| - 1])
      case None => None
      case Some(mid) => if Enabled(mid, es[|es| - 1]) then Some(Step(mid, es[|es| - 1])) else None
  }

  function StatusOf(s: State): Status {
    if s.prompting then Changing else Stable
  }

  // --------------------------------------------------------------- invariant

  ghost predicate IdsRise(messages: seq<Message>, nextID: nat) {
    && (forall i, j :: 0 <= i < j < |messages| ==> messages[i].id < messages[j].id)
    && (forall i :: 0 <= i < |messages| ==> 0 <= messages[i].id < nextID)
  }

  /** Every agent message follows the user message with the id one smaller. */
  ghost predicate AnswersFollow(messages: seq<Message>) {
    forall j :: 0 <= j < |messages| && messages[j].role != User ==>
      && messages[j].role == Agent && j > 0
      && messages[j - 1].role == User && messages[j].id == messages[j - 1].id + 1
  }

  /** While prompting the history was cleared, or ends in the answer as received so far. */
  ghost predicate AnswerIsStream(s: State) {
    s.prompting && s.messages != [] ==>
      EndsIn(s.messages, Agent) && s.messages[|s.messages| - 1].text == s.streaming
  }

  ghost predicate Tidy(s: State) {
    IdsRise(s.messages, s.nextID) && AnswersFollow(s.messages) && AnswerIsStream(s)
  }

  lemma RetoldKeeps(messages: seq<Message>, nextID: nat, text: string)
    requires IdsRise(messages, nextID) && AnswersFollow(messages)
    ensures IdsRise(Retold(messages, text), nextID) && AnswersFollow(Retold(messages, text))
  {
  }

  lemma AskedKeeps(messages: seq<Message>, nextID: nat, text: string, asked: int, answering: int)
    requires IdsRise(messages, nextID) && AnswersFollow(messages)
    ensures var after := messages + Asked(nextID, text, asked, answering);
      IdsRise(after, nextID + 2) && AnswersFollow(after)
  {
  }

  lemma StepKeepsTidy(s: State, e: Event)
    requires Tidy(s) && Enabled(s, e)
    ensures Tidy(Step(s, e))
  {
    match e
    case Send(parts, asked, answering) =>
      AskedKeeps(s.messages, s.nextID, ShownText(parts), asked, answering);
    case Chunk(text) =>
      RetoldKeeps(s.messages, s.nextID, s.streaming + text);
    case Finish(ok) =>
      RetoldKeeps(s.messages, s.nextID, s.streaming);
    case Clear =>
  }

  lemma {:induction false} RunKeepsTidy(s: State, es: seq<Event>)
    requires Tidy(s) && Run(s, es).Some?
    ensures Tidy(Run(s, es).value)
  {
    if es != [] {
      var n := |es| - 1;
      RunKeepsTidy(s, es[..n]);
      StepKeepsTidy(Run(s, es[..n]).value, es[n]);
    }
  }

  lemma EveryRunIsTidy(es: seq<Event>)
    requires Run(INIT, es).Some?
    ensures Tidy(Run(INIT, es).value)
  {
    RunKeepsTidy(INIT, es);
  }

  // ----------------------------------------------------- between two clears

  /**
   Message `i` of a later history either carries an id not issued before, or
   is the earlier message `i`, with its text unless it was then being written.
   */
  ghost predicate Carried(before: State, after: State, i: nat)
    requires i < |after.messages|
  {
    after.messages[i].id >= before.nextID ||
    (i < |before.messages| &&
     var m, m0 := after.messages[i], before.messages[i];
     && m.id == m0.id && m.role == m0.role && m.time == m0.time
     && (m.text == m0.text || (before.prompting && i == |before.messages| - 1)))
  }

  ghost predicate Follows(before: State, after: State) {
    && after.nextID >= before.nextID
    && (forall i: nat :: i < |after.messages| ==> Carried(before, after, i))
    && (after.prompting && after.messages != [] && after.messages[|after.messages| - 1].id < before.nextID ==>
          before.prompting && |after.messages| == |before.messages|)
  }

  lemma StepFollows(before: State, mid: State, e: Event)
    requires Tidy(mid) && Follows(before, mid) && Enabled(mid, e) && !e.Clear?
    ensures Follows(before, Step(mid, e))
  {
    var after := Step(mid, e);
    forall i: nat | i < |after.messages|
      ensures Carried(before, after, i)
    {
      if i < |mid.messages| {
        assert Carried(before, mid, i);
        assert after.messages[i].id == mid.messages[i].id && after.messages[i].role == mid.messages[i].role;
      }
    }
  }

  /** Between two clears ids only grow and none is given out twice, failed prompts or not. */
  lemma {:induction false} IdsAreNotReused(s: State, es: seq<Event>)
    requires Tidy(s) && Run(s, es).Some?
    requires forall k :: 0 <= k < |es| ==> !es[k].Clear?
    ensures Follows(s, Run(s, es).value)
  {
    if es != [] {
      var n := |es| - 1;
      IdsAreNotReused(s, es[..n]);
      RunKeepsTidy(s, es[..n]);
      StepFollows(s, Run(s, es[..n]).value, es[n]);
    }
  }

  // ------------------------------------------------------- one whole exchange

  function ChunkText(es: seq<Event>): string {
    if es == [] then ""
    else
      var before := ChunkText(es[..|es| - 1]);
      if es[|es| - 1].Chunk? then before + es[|es| - 1].text else before
  }

  ghost predicate OnlyChunksAndSends(es: seq<Event>) {
    forall k :: 0 <= k < |es| ==> es[k].Chunk? || es[k].Send?
  }

  /** While a prompt runs, the last message is the chunks received, one after another, and no Send gets through. */
  lemma {:induction false} StreamIsTheChunks(before: seq<Message>, answer: Message, nextID: nat, es: seq<Event>)
    requires answer.role == Agent && OnlyChunksAndSends(es)
    ensures Run(State(before + [answer.(text := "")], nextID, true, ""), es)
      == Some(State(before + [answer.(text := ChunkText(es))], nextID, true, ChunkText(es)))
  {
    if es != [] {
      var n := |es| - 1;
      StreamIsTheChunks(before, answer, nextID, es[..n]);
      var now := before + [answer.(text := ChunkText(es[..n]))];
      assert now[..|now| - 1] == before;
    }
  }

  /** The same after a clear in mid-prompt: the text is still gathered, but the history stays empty. */
  lemma {:induction false} ClearedStream(nextID: nat, es: seq<Event>)
    requires OnlyChunksAndSends(es)
    ensures Run(State([], nextID, true, ""), es) == Some(State([], nextID, true, ChunkText(es)))
  {
    if es != [] {
      ClearedStream(nextID, es[..|es| - 1]);
    }
  }

  lemma {:induction false} RunConcat(s: State, a: seq<Event>, b: seq<Event>)
    requires Run(s, a).Some?
    ensures Run(s, a + b) == Run(Run(s, a).value, b)
  {
    if b == [] {
      assert a + b == a;
    } else {
      var n := |b| - 1;
      RunConcat(s, a, b[..n]);
      assert (a + b)[..|a + b| - 1] == a + b[..n];
      assert (a + b)[|a + b| - 1] == b[n];
    }
  }

  lemma RunOne(s: State, e: Event)
    requires Enabled(s, e)
    ensures Run(s, [e]) == Some(Step(s, e))
  {
    assert [e][..0] == [];
  }

  lemma RunThree(s: State, a: seq<Event>, s1: State, b: seq<Event>, s2: State, c: seq<Event>, s3: State)
    requires Run(s, a) == Some(s1) && Run(s1, b) == Some(s2) && Run(s2, c) == Some(s3)
    ensures Run(s, a + b + c) == Some(s3)
  {
    RunConcat(s, a, b);
    RunConcat(s, a + b, c);
  }

  lemma SendRuns(s: State, send: Event)
    requires send.Send? && SendCheck(s, send.parts).Accepted?
    ensures Run(s, [send]) == Some(Sent(s, ShownText(send.parts), send.asked, send.answering))
  {
    RunOne(s, send);
  }

  lemma Finished(before: seq<Message>, answer: Message, nextID: nat, ok: bool)
    requires answer.role == Agent
    ensures Run(State(before + [answer], nextID, true, answer.text), [Finish(ok)])
      == Some(State(if ok then before + [answer] else before, nextID, false, answer.text))
  {
    RunOne(State(before + [answer], nextID, true, answer.text), Finish(ok));
    var all := before + [answer];
    assert all[..|all| - 1] == before;
  }

  lemma SentAppends(s: State, text: string, asked: int, answering: int)
    ensures Sent(s, text, asked, answering).messages
      == s.messages + [Message(s.nextID, text, User, asked)] + [Message(s.nextID + 1, "", Agent, answering)]
  {
  }

  /** What an exchange leaves behind. */
  ghost function Exchanged(s: State, question: string, asked: int, answer: string, answering: int, ok: bool): State {
    var told := s.messages + [Message(s.nextID, question, User, asked)];
    State(if ok then told + [Message(s.nextID + 1, answer, Agent, answering)] else told, s.nextID + 2, false, answer)
  }

  /**
   A whole exchange: an accepted message, any chunks and rejected messages
   meanwhile, and the end of the prompt.  Success appends the message and the
   chunks put together; failure appends the message alone, and both of its ids
   stay used.
   */
  lemma WholeExchange(s: State, send: Event, es: seq<Event>, ok: bool)
    requires send.Send? && SendCheck(s, send.parts).Accepted? && OnlyChunksAndSends(es)
    ensures Run(s, [send] + es + [Finish(ok)])
      == Some(Exchanged(s, ShownText(send.parts), send.asked, ChunkText(es), send.answering, ok))
  {
    SendRuns(s, send);
    ExchangeRuns(s, send, Sent(s, ShownText(send.parts), send.asked, send.answering), ShownText(send.parts), es, ok);
  }

  lemma ExchangeRuns(s: State, send: Event, s1: State, text: string, es: seq<Event>, ok: bool)
    requires send.Send? && Run(s, [send]) == Some(s1) && s1 == Sent(s, text, send.asked, send.answering)
    requires OnlyChunksAndSends(es)
    ensures Run(s, [send] + es + [Finish(ok)])
      == Some(Exchanged(s, text, send.asked, ChunkText(es), send.answering, ok))
  {
    var before := s.messages + [Message(s.nextID, text, User, send.asked)];
    var answer := Message(s.nextID + 1, ChunkText(es), Agent, send.answering);
    SentAppends(s, text, send.asked, send.answering);
    StreamIsTheChunks(before, answer, s.nextID + 2, es);
    Finished(before, answer, s.nextID + 2, ok);
    RunThree(s, [send], s1, es, State(before + [answer], s.nextID + 2, true, ChunkText(es)),
             [Finish(ok)], Exchanged(s, text, send.asked, ChunkText(es), send.answering, ok));
  }

  /** Chunks that come after the prompt has ended change nothing. */
  lemma {:induction false} LateChunksChangeNothing(s: State, es: seq<Event>)
    requires !s.prompting && forall k :: 0 <= k < |es| ==> es[k].Chunk?
    ensures Run(s, es) == Some(s)
  {
    if es != [] {
      LateChunksChangeNothing(s, es[..|es| - 1]);
    }
  }

  // --------------------------------------------------------- what is not kept

  /**
   Ids are positions after the next message exactly when every id issued so
   far is still in the history, that is, when no prompt has failed since the
   last clear.
   */
  lemma PositionsNeedEveryId(s: State, text: string, asked: int, answering: int)
    requires Tidy(s)
    ensures IdsArePositions(Sent(s, text, asked, answering).messages) <==> |s.messages| == s.nextID
  {
    var after := Sent(s, text, asked, answering).messages;
    if |s.messages| == s.nextID {
      forall i: nat | i < |s.messages|
        ensures s.messages[i].id == i
      {
        RisingIdsArePositions(s.messages, s.nextID, i);
      }
    } else {
      assert after[|s.messages|].id == s.nextID;
    }
  }

  lemma {:induction false} RisingFrom(messages: seq<Message>, nextID: nat, i: nat)
    requires IdsRise(messages, nextID) && i < |messages|
    ensures messages[i].id >= i
  {
    if i > 0 {
      RisingFrom(messages, nextID, i - 1);
    }
  }

  lemma {:induction false} RisingIdsArePositions(messages: seq<Message>, nextID: nat, i: nat)
    requires IdsRise(messages, nextID) && |messages| == nextID && i < |messages|
    ensures messages[i].id == i
    decreases |messages| - i
  {
    RisingFrom(messages, nextID, i);
    if i + 1 < |messages| {
      RisingIdsArePositions(messages, nextID, i + 1);
    }
  }

  /** Ids given out since the last clear and no longer in the history: one for each failed prompt. */
  function Failures(s: State, es: seq<Event>): int {
    if es == [] then s.nextID - |s.messages|
    else
      var before := Run(s, es[..|es| - 1]);
      match es[|es| - 1]
      case Clear => 0
      case Finish(ok) =>
        Failures(s, es[..|es| - 1]) + if !ok && before.Some? && EndsIn(before.value.messages, Agent) then 1 else 0
      case _ => Failures(s, es[..|es| - 1])
  }

  lemma {:induction false} MissingIdsAreFailures(s: State, es: seq<Event>)
    requires Run(s, es).Some?
    ensures var after := Run(s, es).value; after.nextID - |after.messages| == Failures(s, es)
  {
    if es != [] {
      MissingIdsAreFailures(s, es[..|es| - 1]);
    }
  }

  /** So one failed prompt is enough: the next message is at position 1 with id 2. */
  lemma FailedPromptShiftsIds(parts: seq<Part>)
    requires SendCheck(INIT, parts).Accepted?
    ensures var again := Run(INIT, [Send(parts, 0, 0), Finish(false), Send(parts, 0, 0)]);
      again.Some? && |again.value.messages| == 3 && again.value.messages[1].id == 2
  {
    var send := Send(parts, 0, 0);
    var text := ShownText(parts);
    WholeExchange(INIT, send, [], false);
    assert [send] + [] + [Finish(false)] == [send, Finish(false)];
    var s := State([Message(0, text, User, 0)], 2, false, "");
    assert [] + [Message(0, text, User, 0)] == s.messages;
    RunOne(s, send);
    RunConcat(INIT, [send, Finish(false)], [send]);
    assert [send, Finish(false)] + [send] == [send, Finish(false), send];
    SentAppends(s, text, 0, 0);
  }

  // --------------------------------------------------------------- the object

  class ACPConversation {
    var messages: seq<Message>
    var nextID: nat
    var prompting: bool
    var streamingResponse: string

    ghost function Abs(): State
      reads this
    {
      State(messages, nextID, prompting, streamingResponse)
    }

    constructor ()
      ensures Abs() == INIT
    {
      messages, nextID, prompting, streamingResponse := [], 0, false, "";
    }

    method GetStatus() returns (status: Status)
      ensures status == StatusOf(Abs())
    {
      status := if prompting then Changing else Stable;
    }

    /** Send up to the prompt; the caller runs the prompt when it was accepted. */
    method BeginSend(parts: seq<Part>, asked: int, answering: int) returns (result: SendResult)
      modifies this
      ensures result == SendCheck(old(Abs()), parts)
      ensures Abs() == Step(old(Abs()), Event.Send(parts, asked, answering))
      ensures result.Accepted? ==> prompting && !old(prompting)
    {
      var message := PartsText(parts);
      if message != TrimSpace(message) {
        return WhitespaceError;
      }
      if message == "" {
        return EmptyError;
      }
      if prompting {
        return ChangingError;
      }
      OpenPrompt(message, asked, answering);
      return Accepted;
    }

    method OpenPrompt(message: string, asked: int, answering: int)
      modifies this
      ensures Abs() == Sent(old(Abs()), message, asked, answering)
    {
      SentAppends(Abs(), message, asked, answering);
      messages := messages + [Message(nextID, message, User, asked)];
      nextID := nextID + 1;
      messages := messages + [Message(nextID, "", Agent, answering)];
      nextID := nextID + 1;
      streamingResponse := "";
      prompting := true;
    }

    static method PartsText(parts: seq<Part>) returns (message: string)
      ensures message == ShownText(parts)
    {
      message := "";
      var i := 0;
      while i < |parts|
        invariant 0 <= i <= |parts|
        invariant message + ShownText(parts[i..]) == ShownText(parts)
      {
        message := message + parts[i].Shown();
        i := i + 1;
      }
    }

    method HandleChunk(chunk: string)
      modifies this
      ensures Abs() == Step(old(Abs()), Event.Chunk(chunk))
    {
      if !prompting {
        return;
      }
      streamingResponse := streamingResponse + chunk;
      if |messages| > 0 && messages[|messages| - 1].role == Agent {
        var n := |messages| - 1;
        messages := messages[n := messages[n].(text := streamingResponse)];
      }
    }

    /** The end of executePrompt. */
    method EndPrompt(failed: bool)
      requires prompting
      modifies this
      ensures Abs() == Step(old(Abs()), Event.Finish(!failed))
    {
      prompting := false;
      if failed {
        if |messages| > 0 && messages[|messages| - 1].role == Agent {
          messages := messages[..|messages| - 1];
        }
        return;
      }
      var response := streamingResponse;
      if |messages| > 0 && messages[|messages| - 1].role == Agent {
        var n := |messages| - 1;
        messages := messages[n := messages[n].(text := response)];
      }
    }

    method ClearMessages()
      modifies this
      ensures Abs() == Step(old(Abs()), Event.Clear)
    {
      messages := [];
      nextID := 0;
      streamingResponse := "";
    }
  }
}
