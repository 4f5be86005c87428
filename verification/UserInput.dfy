/**
 lib/msgfmt/msgfmt.go: finding the user's own input, echoed at the start of
 what the agent shows, and cutting it off.
 */
module UserInput {
  import opened Text

  datatype AgentType =
    | Claude | Goose | Aider | Codex | Gemini | Copilot | Amp | Cursor | Auggie | AmazonQ | Opencode | Custom | Unknown

  // ----------------------------------------- runes and the lines they stand on

  function NonSpace(line: string): string {
    if line == "" then ""
    else
      var n := |line| - 1;
      NonSpace(line[..n]) + if IsWhiteSpaceChar(line[n]) then "" else [line[n]]
  }

  /** The runes of some lines, whitespace left out. */
  function Runes(lines: seq<string>): string {
    if lines == [] then "" else Runes(lines[..|lines| - 1]) + NonSpace(lines[|lines| - 1])
  }

  /** For each of those runes, the index of its line. */
  function Locations(lines: seq<string>): (locs: seq<nat>)
    ensures |locs| == |Runes(lines)|
    ensures forall i :: 0 <= i < |locs| ==> locs[i] < |lines|
  {
    if lines == [] then []
    else
      var n := |lines| - 1;
      Locations(lines[..n]) + seq(|NonSpace(lines[n])|, _ => n)
  }

  method NormalizeAndGetRuneLineMapping(msgRaw: string)
    returns (runes: string, msgLines: seq<string>, locations: seq<nat>)
    ensures msgLines == Lines(msgRaw) && runes == Runes(msgLines) && locations == Locations(msgLines)
  {
    msgLines := Split(msgRaw, '\n');
    runes, locations := "", [];
    for lineIdx := 0 to |msgLines|
      invariant runes == Runes(msgLines[..lineIdx]) && locations == Locations(msgLines[..lineIdx])
    {
      assert msgLines[..lineIdx + 1][..lineIdx] == msgLines[..lineIdx];
      var lineRunes, lineLocations := NormalizeLine(msgLines[lineIdx], lineIdx);
      runes, locations := runes + lineRunes, locations + lineLocations;
    }
    assert msgLines[..|msgLines|] == msgLines;
  }

  /** The inner loop: the runes of one line. */
  method NormalizeLine(line: string, lineIdx: nat) returns (runes: string, locations: seq<nat>)
    ensures runes == NonSpace(line) && locations == seq(|runes|, _ => lineIdx)
  {
    runes, locations := "", [];
    for k := 0 to |line|
      invariant runes == NonSpace(line[..k]) && locations == seq(|runes|, _ => lineIdx)
    {
      assert line[..k + 1][..k] == line[..k];
      if !IsWhiteSpaceChar(line[k]) {
        runes := runes + [line[k]];
        locations := locations + [lineIdx];
      }
    }
    assert line[..|line|] == line;
  }

  // ------------------------------------------------------------ where it starts

  /** The first position from `i` on where `sub` occurs, or -1. */
  function IndexFrom(s: string, sub: string, i: nat): int
    decreases |s| - i
  {
    if i + |sub| > |s| then -1
    else if OccursAt(s, sub, i) then i
    else IndexFrom(s, sub, i + 1)
  }

  lemma {:induction false} IndexFromIsFirst(s: string, sub: string, i: nat)
    ensures var r := IndexFrom(s, sub, i);
            if r == -1 then forall k :: i <= k ==> !OccursAt(s, sub, k)
            else i <= r && OccursAt(s, sub, r) && forall k :: i <= k < r ==> !OccursAt(s, sub, k)
    decreases |s| - i
  {
    if i + |sub| <= |s| && !OccursAt(s, sub, i) {
      IndexFromIsFirst(s, sub, i + 1);
    }
  }

  /** The first occurrence, or -1; an empty slice occurs at once. */
  method IndexSubslice(s: string, sub: string) returns (r: int)
    ensures r == IndexFrom(s, sub, 0)
    ensures r == -1 || OccursAt(s, sub, r)
    ensures forall k :: 0 <= k && (r == -1 || k < r) ==> !OccursAt(s, sub, k)
  {
    IndexFromIsFirst(s, sub, 0);
    if |sub| == 0 {
      assert OccursAt(s, sub, 0);
      return 0;
    }
    if |sub| > |s| {
      return -1;
    }
    var i := 0;
    while i <= |s| - |sub|
      invariant 0 <= i <= |s| - |sub| + 1
      invariant IndexFrom(s, sub, 0) == IndexFrom(s, sub, i)
    {
      var matched := MatchesAt(s, sub, i);
      if matched {
        return i;
      }
      i := i + 1;
    }
    r := -1;
  }

  /** The inner loop of the search. */
  method MatchesAt(s: string, sub: string, i: nat) returns (matched: bool)
    requires i + |sub| <= |s|
    ensures matched == OccursAt(s, sub, i)
  {
    var j := 0;
    while j < |sub|
      invariant 0 <= j <= |sub|
      invariant s[i..i + j] == sub[..j]
    {
      if s[i + j] != sub[j] {
        assert s[i..i + |sub|][j] != sub[j];
        return false;
      }
      assert s[i..i + j + 1] == s[i..i + j] + [s[i + j]] && sub[..j + 1] == sub[..j] + [sub[j]];
      j := j + 1;
    }
    assert sub[..|sub|] == sub;
    matched := true;
  }

  /** How many leading locations are at most `line`. */
  function LeadingUpTo(locs: seq<nat>, line: nat): (n: nat)
    ensures n <= |locs|
  {
    if locs == [] || locs[0] > line then 0 else 1 + LeadingUpTo(locs[1..], line)
  }

  /** Up to six runes of the input's first line. */
  function InputPrefixLen(inputLocs: seq<nat>): nat {
    var n := LeadingUpTo(inputLocs, 0);
    if n > 6 then 6 else n
  }

  /** The runes of the message's first six lines, or 25 runes when that is more. */
  function MsgPrefixLen(msgLocs: seq<nat>): (n: nat)
    ensures n <= |msgLocs|
  {
    var n := LeadingUpTo(msgLocs, 5);
    var m := if n < 25 then 25 else n;
    if m > |msgLocs| then |msgLocs| else m
  }

  function StartIdx(msg: string, msgLocs: seq<nat>, input: string, inputLocs: seq<nat>): (r: int)
    requires |msg| == |msgLocs| && |input| == |inputLocs|
    ensures r != -1 ==> 0 <= r < |msg| && input != "" && msg[r] == input[0]
  {
    var n := InputPrefixLen(inputLocs);
    if n == 0 then -1
    else
      var r := IndexFrom(msg[..MsgPrefixLen(msgLocs)], input[..n], 0);
      IndexFromIsFirst(msg[..MsgPrefixLen(msgLocs)], input[..n], 0);
      assert r != -1 ==> msg[..MsgPrefixLen(msgLocs)][r..r + n][0] == input[..n][0];
      r
  }

  lemma {:induction false} LeadingUpToIs(locs: seq<nat>, line: nat, n: nat)
    requires n <= |locs|
    requires forall i :: 0 <= i < n ==> locs[i] <= line
    requires n < |locs| ==> locs[n] > line
    ensures LeadingUpTo(locs, line) == n
  {
    if n > 0 {
      LeadingUpToIs(locs[1..], line, n - 1);
    }
  }

  lemma {:induction false} LeadingAtLeast(locs: seq<nat>, line: nat, n: nat)
    requires n <= |locs| && forall i :: 0 <= i < n ==> locs[i] <= line
    ensures LeadingUpTo(locs, line) >= n
  {
    if n > 0 {
      LeadingAtLeast(locs[1..], line, n - 1);
    }
  }

  lemma LeadingOrSix(locs: seq<nat>, i: nat)
    requires i <= |locs| && i <= 6 && forall k :: 0 <= k < i ==> locs[k] == 0
    requires i == 6 || i == |locs| || locs[i] > 0
    ensures InputPrefixLen(locs) == i
  {
    LeadingAtLeast(locs, 0, i);
    if i < 6 {
      LeadingUpToIs(locs, 0, i);
    }
  }

  method FindUserInputStartIdx(msg: string, msgLocs: seq<nat>, input: string, inputLocs: seq<nat>) returns (r: int)
    requires |msg| == |msgLocs| && |input| == |inputLocs|
    ensures r == StartIdx(msg, msgLocs, input, inputLocs)
  {
    var maxUserInputPrefixLen := 6;
    var userInputPrefixLen := -1;
    var i := 0;
    while i < |inputLocs|
      invariant 0 <= i <= |inputLocs| && i <= 6
      invariant forall k :: 0 <= k < i ==> inputLocs[k] == 0
      invariant userInputPrefixLen == if i == 0 then -1 else i
    {
      if inputLocs[i] > 0 {
        break;
      }
      if i >= maxUserInputPrefixLen {
        break;
      }
      userInputPrefixLen := i + 1;
      i := i + 1;
    }
    LeadingOrSix(inputLocs, i);
    assert i == InputPrefixLen(inputLocs);
    if userInputPrefixLen == -1 {
      return -1;
    }
    var userInputPrefix := input[..userInputPrefixLen];

    var msgPrefixLen := 0;
    i := 0;
    while i < |msgLocs|
      invariant 0 <= i <= |msgLocs| && msgPrefixLen == i
      invariant forall k :: 0 <= k < i ==> msgLocs[k] <= 5
    {
      if msgLocs[i] > 5 {
        break;
      }
      msgPrefixLen := i + 1;
      i := i + 1;
    }
    LeadingUpToIs(msgLocs, 5, i);
    var defaultRunesFromMsg := 25;
    if msgPrefixLen < defaultRunesFromMsg {
      msgPrefixLen := defaultRunesFromMsg;
    }
    if msgPrefixLen > |msg| {
      msgPrefixLen := |msg|;
    }
    r := IndexSubslice(msg[..msgPrefixLen], userInputPrefix);
  }

  // --------------------------------------------------------------- where it ends

  function SkipSpace(input: string, k: nat): (u: nat)
    requires k <= |input|
    ensures k <= u <= |input|
    ensures u < |input| ==> !IsWhiteSpaceChar(input[u])
    decreases |input| - k
  {
    if k < |input| && IsWhiteSpaceChar(input[k]) then SkipSpace(input, k + 1) else k
  }

  /** Cell (i, j) of the search: the i-th next rune of the input against the j-th next of the message. */
  predicate Stops(km: nat, ku: nat, msg: string, input: string, i: nat, j: nat) {
    ku + i + 1 >= |input| || km + j + 1 >= |msg| || SkipSpace(input, ku + i + 1) >= |input|
  }

  predicate Hits(km: nat, ku: nat, msg: string, input: string, i: nat, j: nat) {
    && !Stops(km, ku, msg, input, i, j)
    && !IsWhiteSpaceChar(msg[km + j + 1])
    && input[SkipSpace(input, ku + i + 1)] == msg[km + j + 1]
  }

  /** Row by row: cell (i, j) is looked at before cell (k, l). */
  predicate Before(i: nat, j: nat, k: nat, l: nat) {
    i < k || (i == k && j < l)
  }

  /** The first cell from (i, j) on that is a hit, if no cell before it stops the search. */
  function HitFrom(km: nat, ku: nat, msg: string, input: string, i: nat, j: nat): (hit: Option<(nat, nat)>)
    requires i <= 5 && j <= 5
    decreases 5 - i, 5 - j
  {
    if i == 5 then None
    else if j == 5 then HitFrom(km, ku, msg, input, i + 1, 0)
    else if Stops(km, ku, msg, input, i, j) then None
    else if Hits(km, ku, msg, input, i, j) then Some((i, j))
    else HitFrom(km, ku, msg, input, i, j + 1)
  }

  /** A cell among those still to be looked at. */
  predicate Ahead(i: nat, j: nat, k: nat, l: nat) {
    k < 5 && l < 5 && !Before(k, l, i, j)
  }

  /** The search finds the first hit; it misses one only behind a cell that stopped it. */
  lemma {:induction false} HitFromIsFirst(km: nat, ku: nat, msg: string, input: string, i: nat, j: nat)
    requires i <= 5 && j <= 5
    ensures var hit := HitFrom(km, ku, msg, input, i, j);
            && (hit.Some? ==>
                  var k, l := hit.value.0, hit.value.1;
                  && Ahead(i, j, k, l) && Hits(km, ku, msg, input, k, l)
                  && forall p, q :: Ahead(i, j, p, q) && Before(p, q, k, l) ==>
                       !Hits(km, ku, msg, input, p, q) && !Stops(km, ku, msg, input, p, q))
            && (hit.None? ==>
                  forall k, l :: Ahead(i, j, k, l) && Hits(km, ku, msg, input, k, l) ==>
                    exists p, q :: Ahead(i, j, p, q) && Before(p, q, k, l) && Stops(km, ku, msg, input, p, q))
    decreases 5 - i, 5 - j
  {
    if i < 5 {
      if j == 5 {
        HitFromIsFirst(km, ku, msg, input, i + 1, 0);
      } else if !Stops(km, ku, msg, input, i, j) && !Hits(km, ku, msg, input, i, j) {
        HitFromIsFirst(km, ku, msg, input, i, j + 1);
      } else {
        assert Ahead(i, j, i, j);
      }
    }
  }

  /** The next match after known ones: (-1, -1) when there is none. */
  function NextMatch(km: nat, ku: nat, msg: string, input: string): (r: (int, int))
    ensures r == (-1, -1) || (km < r.0 <= km + 5 && r.0 < |msg| && ku < r.1 < |input| && input[r.1] == msg[r.0])
  {
    HitFromIsFirst(km, ku, msg, input, 0, 0);
    match HitFrom(km, ku, msg, input, 0, 0)
    case None => (-1, -1)
    case Some((i, j)) =>
      var u: int := SkipSpace(input, ku + i + 1);
      (km + j + 1, u)
  }

  datatype Cell = Stop | Miss | Hit(m: nat, u: nat)

  /** The body of the two loops. */
  method TryCell(km: nat, ku: nat, msg: string, input: string, i: nat, j: nat) returns (cell: Cell)
    ensures cell.Stop? <==> Stops(km, ku, msg, input, i, j)
    ensures cell.Hit? <==> Hits(km, ku, msg, input, i, j)
    ensures cell.Hit? ==> cell == Hit(km + j + 1, SkipSpace(input, ku + i + 1))
  {
    var userInputIdx := ku + i + 1;
    var msgIdx := km + j + 1;
    if userInputIdx >= |input| || msgIdx >= |msg| {
      return Stop;
    }
    while userInputIdx < |input| && IsWhiteSpaceChar(input[userInputIdx])
      invariant ku + i + 1 <= userInputIdx <= |input|
      invariant SkipSpace(input, ku + i + 1) == SkipSpace(input, userInputIdx)
    {
      userInputIdx := userInputIdx + 1;
    }
    if userInputIdx >= |input| {
      return Stop;
    }
    if IsWhiteSpaceChar(msg[msgIdx]) {
      return Miss;
    }
    cell := if input[userInputIdx] == msg[msgIdx] then Hit(msgIdx, userInputIdx) else Miss;
  }

  method FindNextMatch(km: nat, ku: nat, msg: string, input: string) returns (m: int, u: int)
    ensures (m, u) == NextMatch(km, ku, msg, input)
  {
    for i := 0 to 5
      invariant HitFrom(km, ku, msg, input, 0, 0) == HitFrom(km, ku, msg, input, i, 0)
    {
      for j := 0 to 5
        invariant HitFrom(km, ku, msg, input, 0, 0) == HitFrom(km, ku, msg, input, i, j)
      {
        var cell := TryCell(km, ku, msg, input, i, j);
        if cell.Stop? {
          return -1, -1;
        }
        if cell.Hit? {
          return cell.m, cell.u;
        }
      }
    }
    m, u := -1, -1;
  }

  /** All matches from a known one on: pairs of a message index and an input index. */
  function Matches(km: nat, ku: nat, msg: string, input: string): (ms: seq<(nat, nat)>)
    ensures |ms| >= 1 && ms[0] == (km, ku)
    decreases |input| - ku
  {
    var next := NextMatch(km, ku, msg, input);
    if next.0 == -1 then [(km, ku)] else [(km, ku)] + Matches(next.0, next.1, msg, input)
  }

  /** The message index of the last match. */
  function LastMatch(km: nat, ku: nat, msg: string, input: string): nat
    decreases |input| - ku
  {
    var next := NextMatch(km, ku, msg, input);
    if next.0 == -1 then km else LastMatch(next.0, next.1, msg, input)
  }

  lemma {:induction false} LastMatchIsLast(km: nat, ku: nat, msg: string, input: string)
    ensures var ms := Matches(km, ku, msg, input); LastMatch(km, ku, msg, input) == ms[|ms| - 1].0
    decreases |input| - ku
  {
    var next := NextMatch(km, ku, msg, input);
    if next.0 != -1 {
      LastMatchIsLast(next.0, next.1, msg, input);
    }
  }

  method FindUserInputEndIdx(start: nat, msg: string, input: string) returns (end: nat)
    ensures end == LastMatch(start, 0, msg, input)
  {
    var userInputIdx: nat := 0;
    var msgIdx: nat := start;
    while true
      invariant LastMatch(start, 0, msg, input) == LastMatch(msgIdx, userInputIdx, msg, input)
      decreases |input| - userInputIdx
    {
      var m, u := FindNextMatch(msgIdx, userInputIdx, msg, input);
      if m == -1 || u == -1 {
        break;
      }
      msgIdx := m;
      userInputIdx := u;
    }
    end := msgIdx;
  }

  predicate NoSpace(s: string) {
    forall i :: 0 <= i < |s| ==> !IsWhiteSpaceChar(s[i])
  }

  /** Pairs that rise on both sides, never by more than five, and pair equal runes. */
  ghost predicate CommonSubsequence(ms: seq<(nat, nat)>, msg: string, input: string) {
    && (forall k :: 0 <= k < |ms| ==> ms[k].0 < |msg| && ms[k].1 < |input| && msg[ms[k].0] == input[ms[k].1])
    && (forall k, l :: 0 <= k && l == k + 1 && l < |ms| ==>
          ms[k].0 < ms[l].0 <= ms[k].0 + 5 && ms[k].1 < ms[l].1 <= ms[k].1 + 5)
  }

  /** The matcher is sound: its matches are a common subsequence of message and input with bounded gaps. */
  lemma {:induction false} MatchesAreCommon(km: nat, ku: nat, msg: string, input: string)
    requires km < |msg| && ku < |input| && msg[km] == input[ku] && NoSpace(input)
    ensures CommonSubsequence(Matches(km, ku, msg, input), msg, input)
    decreases |input| - ku
  {
    var next := NextMatch(km, ku, msg, input);
    if next.0 != -1 {
      MatchesAreCommon(next.0, next.1, msg, input);
      NextIsNear(km, ku, msg, input);
      OneMoreInFront((km, ku), Matches(next.0, next.1, msg, input), msg, input);
    }
  }

  lemma NextIsNear(km: nat, ku: nat, msg: string, input: string)
    requires NoSpace(input)
    ensures var next := NextMatch(km, ku, msg, input); next.0 != -1 ==> next.1 <= ku + 5
  {
  }

  lemma OneMoreInFront(first: (nat, nat), ms: seq<(nat, nat)>, msg: string, input: string)
    requires CommonSubsequence(ms, msg, input) && ms != []
    requires first.0 < |msg| && first.1 < |input| && msg[first.0] == input[first.1]
    requires first.0 < ms[0].0 <= first.0 + 5 && first.1 < ms[0].1 <= first.1 + 5
    ensures CommonSubsequence([first] + ms, msg, input)
  {
  }

  lemma AdjacentMatch(km: nat, ku: nat, msg: string, input: string)
    requires NoSpace(input) && ku + 1 < |input| && km + 1 < |msg| && msg[km + 1] == input[ku + 1]
    ensures NextMatch(km, ku, msg, input) == (km + 1, ku + 1)
  {
    assert SkipSpace(input, ku + 1) == ku + 1;
    assert Hits(km, ku, msg, input, 0, 0);
  }

  lemma EchoTail(km: nat, ku: nat, msg: string, input: string)
    requires ku + 1 < |input| && km + (|input| - ku) <= |msg| && msg[km..km + (|input| - ku)] == input[ku..]
    ensures msg[km + 1] == input[ku + 1]
    ensures msg[km + 1..km + 1 + (|input| - (ku + 1))] == input[ku + 1..]
  {
    var n := |input| - ku;
    assert msg[km + 1] == msg[km..km + n][1] && input[ku + 1] == input[ku..][1];
    assert msg[km + 1..km + n] == msg[km..km + n][1..] && input[ku + 1..] == input[ku..][1..];
  }

  /** When the rest of the input follows in the message, the matcher walks along it to its last rune. */
  lemma {:induction false} EchoIsFollowed(km: nat, ku: nat, msg: string, input: string)
    requires NoSpace(input) && ku < |input| && km + (|input| - ku) <= |msg|
    requires msg[km..km + (|input| - ku)] == input[ku..]
    ensures LastMatch(km, ku, msg, input) == km + (|input| - ku) - 1
    decreases |input| - ku
  {
    if ku + 1 < |input| {
      EchoTail(km, ku, msg, input);
      AdjacentMatch(km, ku, msg, input);
      EchoIsFollowed(km + 1, ku + 1, msg, input);
    } else {
      assert Stops(km, ku, msg, input, 0, 0);
    }
  }

  // ------------------------------------------------------------ cutting it off

  /** The markers of the bottom line of an input box. */
  function BoxMarkers(agent: AgentType): seq<string> {
    match agent
    case Gemini => ["╯", "╰"]
    case Copilot => ["╯", "╰"]
    case Cursor => ["┘", "└"]
    case _ => []
  }

  predicate ContainsAll(line: string, markers: seq<string>) {
    markers == [] || (Contains(line, markers[0]) && ContainsAll(line, markers[1..]))
  }

  method SkipTrailingInputBoxLine(lines: seq<string>, currentIdx: nat, markers: seq<string>) returns (idx: nat, found: bool)
    ensures found == (currentIdx + 1 < |lines| && ContainsAll(lines[currentIdx + 1], markers))
    ensures idx == if found then currentIdx + 1 else currentIdx
  {
    if currentIdx + 1 >= |lines| {
      return currentIdx, false;
    }
    var line := lines[currentIdx + 1];
    for k := 0 to |markers|
      invariant ContainsAll(line, markers) == ContainsAll(line, markers[k..])
    {
      if !Contains(line, markers[k]) {
        return currentIdx, false;
      }
    }
    return currentIdx + 1, true;
  }

  /** The last line that belongs to the echo, with what an agent draws below it. */
  function LastEchoLine(lines: seq<string>, last: nat, agent: AgentType): (r: nat)
    requires last < |lines|
    ensures last <= r < |lines|
  {
    if agent.Gemini? || agent.Copilot? || agent.Cursor? then
      if last + 1 < |lines| && ContainsAll(lines[last + 1], BoxMarkers(agent)) then last + 1 else last
    else if agent.Opencode? && last + 2 < |lines| then last + 2
    else last
  }

  /** A text's runes, and the line of each. */
  datatype Mapped = Mapped(runes: string, locs: seq<nat>)

  function MapRunes(lines: seq<string>): (m: Mapped)
    ensures |m.runes| == |m.locs|
  {
    Mapped(Runes(lines), Locations(lines))
  }

  function EchoStart(m: Mapped, input: Mapped): int
    requires |m.runes| == |m.locs| && |input.runes| == |input.locs|
  {
    StartIdx(m.runes, m.locs, input.runes, input.locs)
  }

  /** The last echoed rune, or -1. */
  function EchoRune(m: Mapped, input: Mapped): (r: int)
    requires |m.runes| == |m.locs| && |input.runes| == |input.locs|
    ensures -1 <= r < |m.runes|
  {
    var start := EchoStart(m, input);
    if start == -1 then -1
    else
      LastMatchInMessage(start, 0, m.runes, input.runes);
      LastMatch(start, 0, m.runes, input.runes)
  }

  /** The last line the echo is found on, or -1. */
  function EchoLine(lines: seq<string>, inputLines: seq<string>): (line: int)
    ensures -1 <= line < |lines|
  {
    var m := MapRunes(lines);
    var r := EchoRune(m, MapRunes(inputLines));
    if r == -1 then -1 else m.locs[r]
  }

  /** The message below the echo, which ends on `line`; all of it when there is none. */
  function Below(msgRaw: string, lines: seq<string>, line: int, agent: AgentType): string
    requires -1 <= line < |lines|
  {
    if line == -1 then msgRaw else Unlines(lines[LastEchoLine(lines, line, agent) + 1..])
  }

  /** The message from the first line after the echoed input on; all of it when no echo is found. */
  function WithoutInput(msgRaw: string, inputRaw: string, agent: AgentType): string {
    if inputRaw == "" then msgRaw
    else Below(msgRaw, Lines(msgRaw), EchoLine(Lines(msgRaw), Lines(inputRaw)), agent)
  }

  lemma {:induction false} RunesHaveNoSpace(lines: seq<string>)
    ensures NoSpace(Runes(lines))
  {
    if lines != [] {
      RunesHaveNoSpace(lines[..|lines| - 1]);
      NonSpaceHasNoSpace(lines[|lines| - 1]);
    }
  }

  lemma {:induction false} NonSpaceHasNoSpace(line: string)
    ensures NoSpace(NonSpace(line))
  {
    if line != "" {
      NonSpaceHasNoSpace(line[..|line| - 1]);
    }
  }

  /** The last match is a rune of the message. */
  lemma {:induction false} LastMatchInMessage(km: nat, ku: nat, msg: string, input: string)
    requires km < |msg|
    ensures km <= LastMatch(km, ku, msg, input) < |msg|
    decreases |input| - ku
  {
    var next := NextMatch(km, ku, msg, input);
    if next.0 != -1 {
      LastMatchInMessage(next.0, next.1, msg, input);
    }
  }

  method RemoveUserInput(msgRaw: string, userInputRaw: string, agent: AgentType) returns (r: string)
    ensures r == WithoutInput(msgRaw, userInputRaw, agent)
  {
    if userInputRaw == "" {
      return msgRaw;
    }
    var msgLines, line := LocateEcho(msgRaw, userInputRaw);
    r := CutBelow(msgRaw, msgLines, line, agent);
  }

  method CutBelow(msgRaw: string, msgLines: seq<string>, line: int, agent: AgentType) returns (r: string)
    requires -1 <= line < |msgLines|
    ensures r == Below(msgRaw, msgLines, line, agent)
  {
    if line == -1 {
      return msgRaw;
    }
    var last := SkipBelowEcho(msgLines, line, agent);
    r := Join(msgLines[last + 1..], '\n');
  }

  method LocateEcho(msgRaw: string, userInputRaw: string) returns (msgLines: seq<string>, line: int)
    ensures msgLines == Lines(msgRaw) && line == EchoLine(msgLines, Lines(userInputRaw))
  {
    var msg, msgLocs;
    msg, msgLines, msgLocs := NormalizeAndGetRuneLineMapping(msgRaw);
    var input, inputLines, inputLocs := NormalizeAndGetRuneLineMapping(userInputRaw);
    var end := LocateEchoRune(Mapped(msg, msgLocs), Mapped(input, inputLocs));
    line := if end == -1 then -1 else msgLocs[end];
  }

  method LocateEchoRune(msg: Mapped, input: Mapped) returns (end: int)
    requires |msg.runes| == |msg.locs| && |input.runes| == |input.locs|
    ensures end == EchoRune(msg, input)
  {
    var start := FindUserInputStartIdx(msg.runes, msg.locs, input.runes, input.locs);
    if start == -1 {
      return -1;
    }
    end := FindUserInputEndIdx(start, msg.runes, input.runes);
  }

  method SkipBelowEcho(lines: seq<string>, last: nat, agent: AgentType) returns (r: nat)
    requires last < |lines|
    ensures r == LastEchoLine(lines, last, agent)
  {
    r := last;
    if agent.Gemini? || agent.Copilot? || agent.Cursor? {
      var idx, found := SkipTrailingInputBoxLine(lines, last, BoxMarkers(agent));
      if found {
        r := idx;
      }
    } else if agent.Opencode? {
      if last + 2 < |lines| {
        r := last + 2;
      }
    }
  }

  // --------------------------------------------- a whole echo is wholly removed

  lemma {:induction false} RunesConcat(a: seq<string>, b: seq<string>)
    ensures Runes(a + b) == Runes(a) + Runes(b)
  {
    if b == [] {
      assert a + b == a;
    } else {
      var init, line := b[..|b| - 1], b[|b| - 1];
      RunesConcat(a, init);
      assert (a + b)[..|a + b| - 1] == a + init && (a + b)[|a + b| - 1] == line;
      assert Runes(a) + (Runes(init) + NonSpace(line)) == Runes(a) + Runes(init) + NonSpace(line);
    }
  }

  lemma {:induction false} LocationsConcat(a: seq<string>, b: seq<string>)
    ensures |Locations(a + b)| == |Locations(a)| + |Locations(b)|
    ensures Locations(a + b)[..|Locations(a)|] == Locations(a)
  {
    RunesConcat(a, b);
    if b == [] {
      assert a + b == a;
    } else {
      var n := |b| - 1;
      LocationsConcat(a, b[..n]);
      RunesConcat(a, b[..n]);
      assert (a + b)[..|a + b| - 1] == a + b[..n];
    }
  }

  /** An agent type with nothing drawn below the echo. */
  predicate PlainEcho(agent: AgentType) {
    !agent.Gemini? && !agent.Copilot? && !agent.Cursor? && !agent.Opencode?
  }

  /**
   When the whole input, whitespace ignored, is echoed at the found start, the
   matcher ends on the last echoed rune.
   */
  lemma WholeEchoEnds(m: Mapped, input: Mapped, start: nat)
    requires |m.runes| == |m.locs| && |input.runes| == |input.locs|
    requires NoSpace(input.runes) && input.runes != "" && EchoStart(m, input) == start
    requires start + |input.runes| <= |m.runes| && m.runes[start..start + |input.runes|] == input.runes
    ensures EchoRune(m, input) == start + |input.runes| - 1
  {
    assert input.runes[0..] == input.runes;
    EchoIsFollowed(start, 0, m.runes, input.runes);
  }

  lemma FoundEchoIsCut(msgRaw: string, inputRaw: string, agent: AgentType, lines: seq<string>, line: nat)
    requires inputRaw != "" && lines == Lines(msgRaw) && EchoLine(lines, Lines(inputRaw)) == line
    ensures WithoutInput(msgRaw, inputRaw, agent) == Below(msgRaw, lines, line, agent)
  {
  }

  /** Below an echo begins the line after its last, or after what the agent draws under that. */
  lemma BelowIs(msgRaw: string, lines: seq<string>, line: nat, agent: AgentType)
    requires line < |lines|
    ensures Below(msgRaw, lines, line, agent) == Unlines(lines[LastEchoLine(lines, line, agent) + 1..])
    ensures PlainEcho(agent) ==> Below(msgRaw, lines, line, agent) == Unlines(lines[line + 1..])
  {
  }

  lemma WholeEchoLine(lines: seq<string>, inputLines: seq<string>, m: Mapped, input: Mapped, start: nat, last: nat)
    requires m == MapRunes(lines) && input == MapRunes(inputLines)
    requires input.runes != "" && EchoStart(m, input) == start
    requires start + |input.runes| == last + 1 <= |m.runes| && m.runes[start..last + 1] == input.runes
    ensures EchoLine(lines, inputLines) == m.locs[last]
  {
    RunesHaveNoSpace(inputLines);
    WholeEchoEnds(m, input, start);
    EchoLineOf(lines, inputLines, m, input, last);
  }

  lemma EchoLineOf(lines: seq<string>, inputLines: seq<string>, m: Mapped, input: Mapped, r: nat)
    requires m == MapRunes(lines) && input == MapRunes(inputLines) && EchoRune(m, input) == r
    ensures EchoLine(lines, inputLines) == m.locs[r]
  {
  }

  /** So RemoveUserInput returns exactly what stands below that rune's line. */
  lemma WholeEchoIsCut(msgRaw: string, inputRaw: string, agent: AgentType,
                       lines: seq<string>, m: Mapped, input: Mapped, start: nat, last: nat)
    requires lines == Lines(msgRaw) && inputRaw != ""
    requires m == MapRunes(lines) && input == MapRunes(Lines(inputRaw))
    requires input.runes != "" && EchoStart(m, input) == start
    requires start + |input.runes| == last + 1 <= |m.runes| && m.runes[start..last + 1] == input.runes
    ensures m.locs[last] < |lines| && WithoutInput(msgRaw, inputRaw, agent) == Below(msgRaw, lines, m.locs[last], agent)
  {
    WholeEchoLine(lines, Lines(inputRaw), m, input, start, last);
    FoundEchoIsCut(msgRaw, inputRaw, agent, lines, m.locs[last]);
  }

  lemma {:induction false} RunesOfFirstLine(lines: seq<string>)
    requires lines != []
    ensures LeadingUpTo(Locations(lines), 0) == |NonSpace(lines[0])|
    ensures NonSpace(lines[0]) <= Runes(lines)
  {
    var n := |NonSpace(lines[0])|;
    assert lines == [lines[0]] + lines[1..];
    RunesConcat([lines[0]], lines[1..]);
    LocationsConcat([lines[0]], lines[1..]);
    assert Runes([lines[0]]) == NonSpace(lines[0]) by {
      assert [lines[0]][..0] == [];
    }
    assert Locations([lines[0]]) == seq(n, _ => 0) by {
      assert [lines[0]][..0] == [];
    }
    assert forall i :: 0 <= i < n ==> Locations(lines)[i] == Locations([lines[0]])[i];
    if n < |Locations(lines)| {
      LaterLocations(lines, n);
    }
    LeadingUpToIs(Locations(lines), 0, n);
  }

  /** A rune past those of the first line stands on a later line. */
  lemma {:induction false} LaterLocations(lines: seq<string>, i: nat)
    requires lines != [] && |NonSpace(lines[0])| <= i < |Locations(lines)|
    ensures Locations(lines)[i] > 0
  {
    var n := |lines| - 1;
    if i < |Locations(lines[..n])| {
      LaterLocations(lines[..n], i);
    }
  }

  /**
   An echo at the top is found at once if and only if the input's first line is
   not blank: only that line is searched for, and a blank one is never found.
   */
  lemma EchoFoundAtOnce(lines: seq<string>, inputLines: seq<string>)
    requires inputLines != [] && Runes(inputLines) <= Runes(lines)
    ensures EchoStart(MapRunes(lines), MapRunes(inputLines)) == if NonSpace(inputLines[0]) != "" then 0 else -1
  {
    RunesOfFirstLine(inputLines);
    var msg, input := Runes(lines), Runes(inputLines);
    var n, m := InputPrefixLen(Locations(inputLines)), MsgPrefixLen(Locations(lines));
    if n > 0 {
      assert n <= m && n <= |input|;
      assert msg[..m][0..0 + n] == input[..n];
      assert OccursAt(msg[..m], input[..n], 0);
    }
  }

  lemma BlankFirstLineIsNotFound(lines: seq<string>, inputLines: seq<string>)
    requires inputLines != [] && NonSpace(inputLines[0]) == ""
    ensures EchoLine(lines, inputLines) == -1
  {
    RunesOfFirstLine(inputLines);
  }

  /** What follows an echo, without the lines the agent draws under it. */
  function BelowEcho(echo: seq<string>, rest: seq<string>, agent: AgentType): (below: seq<string>)
    requires echo != []
    ensures PlainEcho(agent) ==> below == rest
  {
    var n := LastEchoLine(echo + rest, |echo| - 1, agent) + 1 - |echo|;
    rest[n..]
  }

  lemma BelowEchoIs(msgRaw: string, echo: seq<string>, rest: seq<string>, agent: AgentType)
    requires echo != []
    ensures Below(msgRaw, echo + rest, |echo| - 1, agent) == Unlines(BelowEcho(echo, rest, agent))
  {
    BelowIs(msgRaw, echo + rest, |echo| - 1, agent);
    var n := LastEchoLine(echo + rest, |echo| - 1, agent) + 1;
    assert (echo + rest)[n..] == rest[n - |echo|..];
  }

  /**
   A message that starts with lines echoing the input, broken over lines as
   the agent likes, the last of them not blank: what is left is exactly the
   lines that follow, without those the agent draws under the echo.  But when
   the input begins with a blank line, all of the message is left.
   */
  lemma EchoedInputIsRemoved(echo: seq<string>, rest: seq<string>, inputRaw: string, agent: AgentType)
    requires AreLines(echo + rest)
    requires echo != [] && NonSpace(echo[|echo| - 1]) != "" && Runes(echo) == Runes(Lines(inputRaw))
    ensures WithoutInput(Unlines(echo + rest), inputRaw, agent)
      == if NonSpace(Lines(inputRaw)[0]) != "" then Unlines(BelowEcho(echo, rest, agent)) else Unlines(echo + rest)
  {
    LinesOfUnlines(echo + rest);
    if NonSpace(Lines(inputRaw)[0]) != "" {
      assert Lines("") == [""];
      EchoEndsWithEcho(echo, rest, Lines(inputRaw));
      TopEchoIsRemoved(echo, rest, Unlines(echo + rest), inputRaw, agent);
    } else {
      BlankFirstLineKeepsAll(Unlines(echo + rest), inputRaw, agent);
    }
  }

  /** An input that begins with a blank line is never removed. */
  lemma BlankFirstLineKeepsAll(msgRaw: string, inputRaw: string, agent: AgentType)
    requires NonSpace(Lines(inputRaw)[0]) == ""
    ensures WithoutInput(msgRaw, inputRaw, agent) == msgRaw
  {
    BlankFirstLineIsNotFound(Lines(msgRaw), Lines(inputRaw));
  }

  /** For example the echo in this message. */
  lemma EchoOfBlankLineStays()
    ensures WithoutInput("hi\nok", "\nhi", Claude) == "hi\nok"
  {
    SplitSeparated("", "hi", '\n');
    assert "" + ['\n'] + "hi" == "\nhi";
    BlankFirstLineKeepsAll("hi\nok", "\nhi", Claude);
  }

  lemma TopEchoIsRemoved(echo: seq<string>, rest: seq<string>, msgRaw: string, inputRaw: string, agent: AgentType)
    requires Lines(msgRaw) == echo + rest && inputRaw != "" && echo != []
    requires EchoLine(echo + rest, Lines(inputRaw)) == |echo| - 1
    ensures WithoutInput(msgRaw, inputRaw, agent) == Unlines(BelowEcho(echo, rest, agent))
  {
    BelowEchoIs(msgRaw, echo, rest, agent);
    FoundEchoIsCut(msgRaw, inputRaw, agent, echo + rest, |echo| - 1);
  }

  lemma EchoEndsWithEcho(echo: seq<string>, rest: seq<string>, inputLines: seq<string>)
    requires echo != [] && NonSpace(echo[|echo| - 1]) != "" && inputLines != []
    requires Runes(echo) == Runes(inputLines) && NonSpace(inputLines[0]) != ""
    ensures EchoLine(echo + rest, inputLines) == |echo| - 1
  {
    EchoRunes(echo, rest);
    EchoFoundAtOnce(echo + rest, inputLines);
    WholeEchoLine(echo + rest, inputLines, MapRunes(echo + rest), MapRunes(inputLines), 0, |Runes(echo)| - 1);
  }

  /** The runes of the echo come first, and the last of them stands on its last line. */
  lemma EchoRunes(echo: seq<string>, rest: seq<string>)
    requires echo != [] && NonSpace(echo[|echo| - 1]) != ""
    ensures var n := |Runes(echo)|;
            && 0 < n <= |Runes(echo + rest)| && Runes(echo + rest)[0..n] == Runes(echo) <= Runes(echo + rest)
            && Locations(echo + rest)[n - 1] == |echo| - 1
  {
    RunesConcat(echo, rest);
    LocationsConcat(echo, rest);
    var n := |Runes(echo)|;
    assert Locations(echo + rest)[n - 1] == Locations(echo)[n - 1];
  }
}
