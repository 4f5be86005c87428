/** lib/screentracker/conversation.go: the records both conversation kinds share. */
module Conversations {
  /** Go's zero value of a role is the empty string, written `Unset` here. */
  datatype Role = Unset | User | Agent

  datatype Status = Initializing | Changing | Stable

  datatype Message = Message(id: int, text: string, role: Role, time: int)

  const ZERO_TIME := 0
  const ZERO_MESSAGE := Message(0, "", Unset, ZERO_TIME)

  /** A text part of an outgoing message: what is typed may differ from what is shown. */
  datatype Part = Part(content: string, alias: string, hidden: bool) {
    function Shown(): string {
      if hidden then "" else if alias != "" then alias else content
    }
  }

  function ShownText(parts: seq<Part>): string {
    if parts == [] then "" else parts[0].Shown() + ShownText(parts[1..])
  }

  predicate EndsIn(messages: seq<Message>, role: Role) {
    |messages| > 0 && messages[|messages| - 1].role == role
  }

  /** The last message of a role, or the zero message when there is none. */
  function LastOf(messages: seq<Message>, role: Role): Message {
    if messages == [] then ZERO_MESSAGE
    else if EndsIn(messages, role) then messages[|messages| - 1]
    else LastOf(messages[..|messages| - 1], role)
  }

  ghost predicate IdsArePositions(messages: seq<Message>) {
    forall i :: 0 <= i < |messages| ==> messages[i].id == i && messages[i].role != Unset
  }

  ghost predicate NoEqualNeighbours(messages: seq<Message>) {
    forall i, j :: 0 <= i && j == i + 1 && j < |messages| ==> messages[i].role != messages[j].role
  }

  ghost predicate WellFormedHistory(messages: seq<Message>) {
    IdsArePositions(messages) && NoEqualNeighbours(messages)
  }

  /** What one step may do to a history: keep it, append one message, or rewrite a last agent message. */
  ghost predicate Evolves(before: seq<Message>, after: seq<Message>) {
    || after == before
    || (|after| == |before| + 1 && before == after[..|before|])
    || (EndsIn(before, Agent) && EndsIn(after, Agent) && |after| == |before|
        && after[..|after| - 1] == before[..|before| - 1])
  }
}
