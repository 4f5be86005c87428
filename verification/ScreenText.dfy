/**
 From a screen to the text of an agent's message: the difference to the screen
 before (lib/screentracker/diff.go), the input box cut off
 (lib/msgfmt/message_box.go), and blank lines trimmed (lib/msgfmt/msgfmt.go).
 */
module ScreenText {
  import opened Text
  import opened UserInput

  // -------------------------------------------------------------- blank lines

  /** Lines without the blank ones at either end. */
  function WithoutBlankEnds(lines: seq<string>): seq<string> {
    Trim(lines, IsBlank)
  }

  method TrimEmptyLines(message: string) returns (r: string)
    ensures r == Unlines(WithoutBlankEnds(Lines(message)))
  {
    var lines := Split(message, '\n');
    var first, last := UncutRange(lines, IsBlank);
    if last == -1 {
      TrimAllCut(lines, IsBlank);
      return Join([], '\n');
    }
    r := Join(lines[first..last + 1], '\n');
  }

  // ------------------------------------------------------------- message boxes

  predicate ContainsHorizontalBorder(line: string) {
    Contains(line, "───────────────") || Contains(line, "╌╌╌╌╌╌╌╌╌╌╌╌╌╌╌")
  }

  predicate HasPromptSign(line: string) {
    Contains(line, ">")
  }

  /** One of the last six lines has a prompt sign: the box starts there, or at a border right above. */
  function GreaterThanBox(lines: seq<string>): (r: int)
    ensures -1 <= r < |lines|
  {
    var i := LastWhere(lines, |lines|, if |lines| < 6 then 0 else |lines| - 6, HasPromptSign);
    if i > 0 && ContainsHorizontalBorder(lines[i - 1]) then i - 1 else i
  }

  predicate SlimBoxAt(lines: seq<string>, i: nat)
    requires i + 2 < |lines|
  {
    && ContainsHorizontalBorder(lines[i])
    && (Contains(lines[i + 1], "|") || Contains(lines[i + 1], "│") || Contains(lines[i + 1], "❯"))
    && ContainsHorizontalBorder(lines[i + 2])
  }

  function SlimBox(lines: seq<string>, i: nat, low: nat): (r: int)
    requires i + 2 <= |lines| || i <= low
    ensures -1 <= r < i
    ensures r == -1 ==> forall k :: low <= k < i ==> !SlimBoxAt(lines, k)
    ensures r != -1 ==> low <= r && SlimBoxAt(lines, r) && forall k :: r < k < i ==> !SlimBoxAt(lines, k)
  {
    if i <= low then -1
    else if SlimBoxAt(lines, i - 1) then i - 1
    else SlimBox(lines, i - 1, low)
  }

  method FindGreaterThanMessageBox(lines: seq<string>) returns (r: int)
    ensures r == GreaterThanBox(lines)
  {
    r := FindLastWhere(lines, if |lines| < 6 then 0 else |lines| - 6, HasPromptSign);
    if r > 0 && ContainsHorizontalBorder(lines[r - 1]) {
      r := r - 1;
    }
  }

  /** Where a slim box starts among the last nine lines. */
  function GenericSlimBox(lines: seq<string>): (r: int)
    ensures -1 <= r < |lines|
  {
    if |lines| < 3 then -1 else SlimBox(lines, |lines| - 2, if |lines| < 9 then 0 else |lines| - 9)
  }

  method FindGenericSlimMessageBox(lines: seq<string>) returns (r: int)
    ensures r == GenericSlimBox(lines)
  {
    var low := if |lines| < 9 then 0 else |lines| - 9;
    var i := |lines| - 3;
    while i >= low
      invariant |lines| >= 3 ==> low - 1 <= i <= |lines| - 3
      invariant |lines| >= 3 ==> GenericSlimBox(lines) == SlimBox(lines, i + 1, low)
    {
      if SlimBoxAt(lines, i) {
        return i;
      }
      i := i - 1;
    }
    r := -1;
  }

  /** How many lines stand above the message box. */
  function AboveBox(lines: seq<string>): (n: nat)
    ensures n <= |lines|
  {
    var gt := GreaterThanBox(lines);
    var box := if gt == -1 then GenericSlimBox(lines) else gt;
    if box == -1 then |lines| else box
  }

  method RemoveMessageBox(msg: string) returns (r: string)
    ensures r == Unlines(Lines(msg)[..AboveBox(Lines(msg))])
  {
    var lines := Split(msg, '\n');
    var messageBoxStartIdx := FindGreaterThanMessageBox(lines);
    if messageBoxStartIdx == -1 {
      messageBoxStartIdx := FindGenericSlimMessageBox(lines);
    }
    if messageBoxStartIdx != -1 {
      lines := lines[..messageBoxStartIdx];
    } else {
      assert lines[..|lines|] == lines;
    }
    r := Join(lines, '\n');
  }

  const OPENCODE_BOX_BOTTOM := "╹▀▀▀▀▀▀▀▀▀▀▀▀▀▀▀▀▀"

  predicate ClosesOpencodeBox(line: string) {
    HasPrefix(TrimSpace(line), OPENCODE_BOX_BOTTOM)
  }

  /** The box has four lines above its bottom. */
  function AboveOpencodeBox(lines: seq<string>): (n: nat)
    ensures n <= |lines|
  {
    var i := LastWhere(lines, |lines|, 4, ClosesOpencodeBox);
    if i == -1 then |lines| else i - 4
  }

  method RemoveOpencodeMessageBox(msg: string) returns (r: string)
    ensures r == Unlines(Lines(msg)[..AboveOpencodeBox(Lines(msg))])
  {
    var lines := Split(msg, '\n');
    var end := FindLastWhere(lines, 4, ClosesOpencodeBox);
    var kept := if end == -1 then |lines| else end - 4;
    assert kept == AboveOpencodeBox(lines);
    r := Join(lines[..kept], '\n');
  }

  /** A Codex screen ends in a prompt line, the line below it and a status line, which alone is kept. */
  function WithoutCodexBox(lines: seq<string>): seq<string> {
    var n := |lines|;
    if n >= 3 && Contains(lines[n - 3], "›") then lines[..n - 3] + [lines[n - 1]] else lines
  }

  method RemoveCodexMessageBox(msg: string) returns (r: string)
    ensures r == Unlines(WithoutCodexBox(Lines(msg)))
  {
    var lines := Split(msg, '\n');
    if |lines| >= 3 && Contains(lines[|lines| - 3], "›") {
      var idx := |lines| - 3;
      lines := lines[..idx] + [lines[idx + 2]];
    }
    r := Join(lines, '\n');
  }

  predicate ClosesAmpBox(line: string) {
    HasPrefix(TrimSpace(line), "╰") && HasSuffix(TrimSpace(line), "╯")
  }

  predicate OpensAmpBox(line: string) {
    HasPrefix(TrimSpace(line), "╭") && HasSuffix(TrimSpace(line), "╮")
  }

  /** The box ends on the last line that closes one and starts on the last opening line before that. */
  function AboveAmpBox(lines: seq<string>): (n: nat)
    ensures n <= |lines|
  {
    var start := LastWhere(lines, LastWhere(lines, |lines|, 0, ClosesAmpBox) + 1, 0, OpensAmpBox);
    if start == -1 then |lines| else start
  }

  /** An opening line with a closing one after it: the last closing one, and the nearest opening one above. */
  ghost predicate IsAmpBox(lines: seq<string>, start: nat, end: nat) {
    && start < end < |lines| && OpensAmpBox(lines[start]) && ClosesAmpBox(lines[end])
    && (forall k :: end < k < |lines| ==> !ClosesAmpBox(lines[k]))
    && (forall k :: start < k < end ==> !OpensAmpBox(lines[k]))
  }

  lemma AmpBoxIsLast(lines: seq<string>)
    ensures var n := AboveAmpBox(lines);
            if n < |lines| then exists end: nat :: IsAmpBox(lines, n, end)
            else forall i, k :: 0 <= i < k < |lines| && OpensAmpBox(lines[i]) ==> !ClosesAmpBox(lines[k])
  {
    LastWhereIsLast(lines, |lines|, 0, ClosesAmpBox);
    var end := LastWhere(lines, |lines|, 0, ClosesAmpBox);
    LastWhereIsLast(lines, end + 1, 0, OpensAmpBox);
    var start := LastWhere(lines, end + 1, 0, OpensAmpBox);
    if start != -1 {
      OpeningIsNotClosing(lines[end]);
      assert IsAmpBox(lines, start, end);
    }
  }

  lemma OpeningIsNotClosing(line: string)
    ensures !(OpensAmpBox(line) && ClosesAmpBox(line))
  {
  }

  const AMP_WELCOME := "Welcome to Amp"

  method RemoveAmpMessageBox(msg: string) returns (r: string)
    ensures var above := Unlines(Lines(msg)[..AboveAmpBox(Lines(msg))]);
            r == if above == "" then AMP_WELCOME else above
  {
    var lines := Split(msg, '\n');
    var msgBoxEndFound, msgBoxStartIdx := false, |lines|;
    var i := |lines| - 1;
    ghost var end := LastWhere(lines, |lines|, 0, ClosesAmpBox);
    while i >= 0
      invariant -1 <= i < |lines| && msgBoxStartIdx == |lines|
      invariant msgBoxEndFound ==> LastWhere(lines, end + 1, 0, OpensAmpBox) == LastWhere(lines, i + 1, 0, OpensAmpBox)
      invariant !msgBoxEndFound ==> end == LastWhere(lines, i + 1, 0, ClosesAmpBox)
    {
      if !msgBoxEndFound && ClosesAmpBox(lines[i]) {
        msgBoxEndFound := true;
      }
      if msgBoxEndFound && OpensAmpBox(lines[i]) {
        msgBoxStartIdx := i;
        break;
      }
      i := i - 1;
    }
    assert msgBoxStartIdx == AboveAmpBox(lines);
    r := Join(lines[..msgBoxStartIdx], '\n');
    if r == "" {
      r := AMP_WELCOME;
    }
  }

  // --------------------------------------------------------- screen difference

  /** Lines of an Opencode screen that are never compared: its header, when the screen has room for one. */
  function HeaderLines(newLines: seq<string>, agent: AgentType): nat {
    if |newLines| >= 2 && agent.Opencode? then 3 else 0
  }

  /** Slicing past the header panics on an Opencode screen of exactly two lines. */
  predicate DiffPanics(newScreen: string, agent: AgentType) {
    HeaderLines(Lines(newScreen), agent) > |Lines(newScreen)|
  }

  lemma PanicsOnTwoLines(newScreen: string, agent: AgentType)
    ensures DiffPanics(newScreen, agent) <==> agent.Opencode? && |Lines(newScreen)| == 2
  {
  }

  lemma TwoLinesPanic()
    ensures DiffPanics("a\nb", Opencode)
  {
    SplitSeparated("a", "b", '\n');
    assert "a" + ['\n'] + "b" == "a\nb";
    SplitClean("b", '\n');
  }

  /** The first line from `i` on that the old screen did not have. */
  function FirstNew(oldLines: seq<string>, newLines: seq<string>, i: nat): (r: nat)
    requires i <= |newLines|
    ensures i <= r <= |newLines|
    ensures forall k :: i <= k < r ==> newLines[k] in oldLines
    ensures r < |newLines| ==> newLines[r] !in oldLines
    decreases |newLines| - i
  {
    if i == |newLines| || newLines[i] !in oldLines then i else FirstNew(oldLines, newLines, i + 1)
  }

  predicate AllBlank(lines: seq<string>) {
    forall i :: 0 <= i < |lines| ==> IsBlank(lines[i])
  }

  /** All lines from the first new one on, without blank ends; kept as they are when all are blank. */
  function DiffLines(oldLines: seq<string>, newLines: seq<string>, agent: AgentType): seq<string>
    requires HeaderLines(newLines, agent) <= |newLines|
  {
    var section := newLines[FirstNew(oldLines, newLines, HeaderLines(newLines, agent))..];
    if AllBlank(section) then section else WithoutBlankEnds(section)
  }

  method ScreenDiff(oldScreen: string, newScreen: string, agent: AgentType) returns (r: string)
    requires !DiffPanics(newScreen, agent)
    ensures r == Unlines(DiffLines(Lines(oldScreen), Lines(newScreen), agent))
  {
    var oldLines := Split(oldScreen, '\n');
    var newLines := Split(newScreen, '\n');
    var firstNonMatchingLine := FindFirstNew(oldLines, newLines, agent);
    var section := newLines[firstNonMatchingLine..];
    var first, last := UncutRange(section, IsBlank);
    if last == -1 {
      // neither loop of the source finds a line: the section is kept whole
      r := Join(section, '\n');
    } else {
      r := Join(section[first..last + 1], '\n');
    }
  }

  method FindFirstNew(oldLines: seq<string>, newLines: seq<string>, agent: AgentType) returns (r: nat)
    requires HeaderLines(newLines, agent) <= |newLines|
    ensures r == FirstNew(oldLines, newLines, HeaderLines(newLines, agent))
  {
    var oldLinesMap: map<string, bool> := map[];
    var dynamicHeaderEnd := -1;
    if |newLines| >= 2 && agent == Opencode {
      dynamicHeaderEnd := 2;
    }
    for k := 0 to |oldLines|
      invariant forall line :: line in oldLinesMap <==> line in oldLines[..k]
    {
      assert oldLines[..k + 1] == oldLines[..k] + [oldLines[k]];
      oldLinesMap := oldLinesMap[oldLines[k] := true];
    }
    assert oldLines[..|oldLines|] == oldLines;
    var header := dynamicHeaderEnd + 1;
    r := header;
    while r < |newLines|
      invariant header <= r <= |newLines|
      invariant FirstNew(oldLines, newLines, header) == FirstNew(oldLines, newLines, r)
    {
      if newLines[r] !in oldLinesMap {
        return r;
      }
      r := r + 1;
    }
  }

  // ----------------------------------------------------------------- formatting

  function WithoutBox(agent: AgentType, text: string): string {
    var lines := Lines(text);
    match agent
    case Codex => Unlines(WithoutCodexBox(lines))
    case Opencode => Unlines(lines[..AboveOpencodeBox(lines)])
    case Amp => var above := Unlines(lines[..AboveAmpBox(lines)]); if above == "" then AMP_WELCOME else above
    case _ => Unlines(lines[..AboveBox(lines)])
  }

  /** The input and the box removed and blank ends trimmed; an unknown agent's message is left as it is. */
  function Formatted(agent: AgentType, message: string, userInput: string): string {
    if agent.Unknown? then message
    else Unlines(WithoutBlankEnds(Lines(WithoutBox(agent, WithoutInput(message, userInput, agent)))))
  }

  method FormatAgentMessage(agent: AgentType, message: string, userInput: string) returns (r: string)
    ensures r == Formatted(agent, message, userInput)
  {
    if agent.Unknown? {
      return message;
    }
    r := RemoveUserInput(message, userInput, agent);
    r := RemoveBox(agent, r);
    r := TrimEmptyLines(r);
  }

  method RemoveBox(agent: AgentType, text: string) returns (r: string)
    ensures r == WithoutBox(agent, text)
  {
    match agent {
      case Codex => r := RemoveCodexMessageBox(text);
      case Opencode => r := RemoveOpencodeMessageBox(text);
      case Amp => r := RemoveAmpMessageBox(text);
      case _ => r := RemoveMessageBox(text);
    }
  }

  // -------------------------------------------- what is shown is on the screen

  /** A text made of neighbouring lines of a screen. */
  ghost predicate IsBlock(text: string, screen: seq<string>) {
    exists a, b :: BlockAt(text, screen, a, b)
  }

  ghost predicate BlockAt(text: string, screen: seq<string>, a: int, b: int) {
    0 <= a <= b <= |screen| && text == Unlines(screen[a..b])
  }

  lemma LinesOfBlock(text: string, screen: seq<string>, a: nat, b: nat)
    requires AreLines(screen) && BlockAt(text, screen, a, b)
    ensures Lines(text) == if a == b then [""] else screen[a..b]
  {
    LinesOfUnlines(screen[a..b]);
  }

  /** Neighbouring lines of a block are a block, or the empty text. */
  lemma PartOfBlock(text: string, screen: seq<string>, i: nat, j: nat)
    requires AreLines(screen) && IsBlock(text, screen) && i <= j <= |Lines(text)|
    ensures IsBlock(Unlines(Lines(text)[i..j]), screen)
  {
    var a, b :| BlockAt(text, screen, a, b);
    LinesOfBlock(text, screen, a, b);
    var part := Lines(text)[i..j];
    if a == b {
      assert part == [] || part == [""];
      assert BlockAt(Unlines(part), screen, 0, 0) by {
        assert screen[0..0] == [];
      }
    } else {
      assert Lines(text) == screen[a..b];
      SliceOfSlice(screen, a, b, i, j);
      assert BlockAt(Unlines(part), screen, a + i, a + j);
    }
  }

  lemma WithoutInputIsBlock(message: string, userInput: string, agent: AgentType, screen: seq<string>)
    requires AreLines(screen) && IsBlock(message, screen)
    ensures IsBlock(WithoutInput(message, userInput, agent), screen)
  {
    BelowIsBlock(message, Lines(message), EchoLine(Lines(message), Lines(userInput)), agent, screen);
  }

  lemma BelowIsBlock(message: string, lines: seq<string>, line: int, agent: AgentType, screen: seq<string>)
    requires AreLines(screen) && IsBlock(message, screen) && lines == Lines(message) && -1 <= line < |lines|
    ensures IsBlock(Below(message, lines, line, agent), screen)
  {
    if line != -1 {
      var n := LastEchoLine(lines, line, agent) + 1;
      PartOfBlock(message, screen, n, |lines|);
      assert lines[n..|lines|] == lines[n..];
    }
  }

  lemma DiffIsBlock(oldLines: seq<string>, newLines: seq<string>, agent: AgentType)
    requires HeaderLines(newLines, agent) <= |newLines|
    ensures IsBlock(Unlines(DiffLines(oldLines, newLines, agent)), newLines)
  {
    var first := FirstNew(oldLines, newLines, HeaderLines(newLines, agent));
    var section := newLines[first..];
    if AllBlank(section) {
      assert newLines[first..|newLines|] == section;
      assert BlockAt(Unlines(section), newLines, first, |newLines|);
    } else {
      assert newLines[first..|newLines|] == section;
      var a, b := TrimSlice(newLines, first, |newLines|, IsBlank);
      assert BlockAt(Unlines(WithoutBlankEnds(section)), newLines, a, b);
    }
  }

  /** A block whose first and last lines are not blank, or nothing. */
  ghost predicate ShownAt(text: string, screen: seq<string>, a: int, b: int) {
    && BlockAt(text, screen, a, b)
    && (a < b ==> !IsBlank(screen[a]) && !IsBlank(screen[b - 1]))
  }

  /** Such a block again, but without the prompt line `b` and the line below it. */
  ghost predicate ShownAround(text: string, screen: seq<string>, a: int, b: int) {
    && 0 <= a <= b < |screen| - 2
    && Contains(screen[b], "›")
    && text == Unlines(screen[a..b] + [screen[b + 2]])
    && !IsBlank(screen[b + 2])
    && (a < b ==> !IsBlank(screen[a]))
  }

  ghost predicate AroundAt(text: string, screen: seq<string>, a: int, b: int) {
    ShownAt(text, screen, a, b) || ShownAround(text, screen, a, b)
  }

  /** Trimmed last, a block begins and ends with lines that are not blank, or is empty. */
  lemma TrimmedBlock(text: string, screen: seq<string>) returns (a: nat, b: nat)
    requires AreLines(screen) && IsBlock(text, screen)
    ensures ShownAt(Unlines(WithoutBlankEnds(Lines(text))), screen, a, b)
  {
    var p, q :| BlockAt(text, screen, p, q);
    LinesOfBlock(text, screen, p, q);
    if p == q {
      a, b := 0, 0;
      NoLinesLeft();
    } else {
      a, b := TrimSlice(screen, p, q, IsBlank);
    }
    assert WithoutBlankEnds(Lines(text)) == screen[a..b];
  }

  lemma NoLinesLeft()
    ensures WithoutBlankEnds([""]) == []
  {
    assert IsBlank("");
    TrimAllCut([""], IsBlank);
  }

  /** Above a box of any other agent stands a block. */
  lemma TrimmedAbove(text: string, n: nat, screen: seq<string>) returns (a: nat, b: nat)
    requires AreLines(screen) && IsBlock(text, screen) && n <= |Lines(text)|
    ensures ShownAt(Unlines(WithoutBlankEnds(Lines(Unlines(Lines(text)[..n])))), screen, a, b)
  {
    PartOfBlock(text, screen, 0, n);
    assert Lines(text)[0..n] == Lines(text)[..n];
    a, b := TrimmedBlock(Unlines(Lines(text)[..n]), screen);
  }

  lemma CodexBoxOfBlock(screen: seq<string>, p: nat, q: nat)
    requires p + 3 <= q <= |screen| && Contains(screen[q - 3], "›")
    ensures WithoutCodexBox(screen[p..q]) == screen[p..q - 3] + [screen[q - 1]]
  {
    assert screen[p..q][..q - p - 3] == screen[p..q - 3];
  }

  lemma NoCodexBox(screen: seq<string>, p: nat, q: nat)
    requires p <= q <= |screen| && !(p + 3 <= q && Contains(screen[q - 3], "›"))
    ensures WithoutCodexBox(screen[p..q]) == screen[p..q]
  {
  }

  /** What trimming leaves of a Codex screen: a block, or one around the prompt that was cut out. */
  lemma TrimmedAround(text: string, screen: seq<string>) returns (a: nat, b: nat)
    requires AreLines(screen) && IsBlock(text, screen)
    ensures AroundAt(Unlines(WithoutBlankEnds(Lines(Unlines(WithoutCodexBox(Lines(text)))))), screen, a, b)
  {
    var p, q :| BlockAt(text, screen, p, q);
    LinesOfBlock(text, screen, p, q);
    if p == q {
      a, b := TrimmedBlock(text, screen);
    } else {
      a, b := TrimmedSlice(screen, p, q);
    }
  }

  lemma TrimmedSlice(screen: seq<string>, p: nat, q: nat) returns (a: nat, b: nat)
    requires AreLines(screen) && p < q <= |screen|
    ensures AroundAt(Unlines(WithoutBlankEnds(Lines(Unlines(WithoutCodexBox(screen[p..q]))))), screen, a, b)
  {
    var kept := WithoutCodexBox(screen[p..q]);
    if p + 3 <= q && Contains(screen[q - 3], "›") {
      CodexBoxOfBlock(screen, p, q);
      a, b := TrimmedKept(kept, screen, p, q - 3);
    } else {
      NoCodexBox(screen, p, q);
      a, b := TrimmedWhole(kept, screen, p, q);
    }
  }

  lemma TrimmedWhole(kept: seq<string>, screen: seq<string>, p: nat, q: nat) returns (a: nat, b: nat)
    requires AreLines(screen) && p < q <= |screen| && kept == screen[p..q]
    ensures AroundAt(Unlines(WithoutBlankEnds(Lines(Unlines(kept)))), screen, a, b)
  {
    LinesOfUnlines(kept);
    a, b := TrimSlice(screen, p, q, IsBlank);
  }

  lemma TrimmedKept(kept: seq<string>, screen: seq<string>, p: nat, m: nat) returns (a: nat, b: nat)
    requires AreLines(screen) && p <= m < |screen| - 2 && Contains(screen[m], "›")
    requires kept == screen[p..m] + [screen[m + 2]]
    ensures AroundAt(Unlines(WithoutBlankEnds(Lines(Unlines(kept)))), screen, a, b)
  {
    LinesOfUnlines(kept);
    a, b := TrimSliceAndLast(screen, p, m, screen[m + 2], IsBlank);
  }

  /** Where the text shown to the user comes from. */
  ghost predicate FromScreen(agent: AgentType, text: string, screen: seq<string>, a: int, b: int) {
    match agent
    case Unknown => BlockAt(text, screen, a, b)
    case Codex => AroundAt(text, screen, a, b)
    case Amp => ShownAt(text, screen, a, b) || text == AMP_WELCOME
    case _ => ShownAt(text, screen, a, b)
  }

  /**
   The message text computed from a screen is a block of that screen's lines
   whose first and last are not blank, or is empty; a Codex text may lack the
   prompt before its last line, an Amp text may be the welcome, and an unknown
   agent's text is not trimmed.
   */
  lemma MessageIsOnScreen(oldScreen: string, newScreen: string, userInput: string, agent: AgentType)
    returns (a: nat, b: nat)
    requires !DiffPanics(newScreen, agent)
    ensures var screen := Lines(newScreen);
            var diff := Unlines(DiffLines(Lines(oldScreen), screen, agent));
            FromScreen(agent, Formatted(agent, diff, userInput), screen, a, b)
  {
    var screen := Lines(newScreen);
    UnlinesOfLines(newScreen);
    var diff := Unlines(DiffLines(Lines(oldScreen), screen, agent));
    DiffIsBlock(Lines(oldScreen), screen, agent);
    WithoutInputIsBlock(diff, userInput, agent, screen);
    if agent.Unknown? {
      var p, q :| BlockAt(diff, screen, p, q);
      a, b := p, q;
    } else {
      a, b := FormattedIsOnScreen(agent, WithoutInput(diff, userInput, agent), screen);
    }
  }

  lemma FormattedIsOnScreen(agent: AgentType, text: string, screen: seq<string>) returns (a: nat, b: nat)
    requires AreLines(screen) && IsBlock(text, screen) && !agent.Unknown?
    ensures FromScreen(agent, Unlines(WithoutBlankEnds(Lines(WithoutBox(agent, text)))), screen, a, b)
  {
    match agent {
      case Codex => a, b := TrimmedAround(text, screen);
      case Opencode => a, b := TrimmedAbove(text, AboveOpencodeBox(Lines(text)), screen);
      case Amp =>
        a, b := TrimmedAbove(text, AboveAmpBox(Lines(text)), screen);
        WelcomeStays();
      case _ => a, b := TrimmedAbove(text, AboveBox(Lines(text)), screen);
    }
  }

  lemma OneLineStays(line: string)
    requires '\n' !in line && !IsBlank(line)
    ensures Unlines(WithoutBlankEnds(Lines(line))) == line
  {
    assert Unlines([line]) == line;
    LinesOfUnlines([line]);
    assert WithoutBlankEnds([line]) == [line];
  }

  lemma WelcomeStays()
    ensures Unlines(WithoutBlankEnds(Lines(AMP_WELCOME))) == AMP_WELCOME
  {
    assert AMP_WELCOME[0] == 'W';
    OneLineStays(AMP_WELCOME);
  }

  /** A screen that shows no new line, apart from an Opencode header, gives the empty text, or Amp's welcome. */
  lemma NothingNewGivesNothing(oldScreen: string, newScreen: string, userInput: string, agent: AgentType)
    requires !DiffPanics(newScreen, agent)
    requires forall k :: HeaderLines(Lines(newScreen), agent) <= k < |Lines(newScreen)| ==> Lines(newScreen)[k] in Lines(oldScreen)
    ensures DiffLines(Lines(oldScreen), Lines(newScreen), agent) == []
    ensures Formatted(agent, "", userInput) == if agent.Amp? then AMP_WELCOME else ""
  {
    NothingIsFormattedToNothing(agent, userInput);
  }

  lemma NothingIsFormattedToNothing(agent: AgentType, userInput: string)
    ensures Formatted(agent, "", userInput) == if agent.Amp? then AMP_WELCOME else ""
  {
    if !agent.Unknown? {
      assert Lines("") == [""];
      NoEchoInNothing(Lines(userInput));
      assert WithoutInput("", userInput, agent) == "";
      NothingWithoutBox(agent);
      if agent.Amp? {
        WelcomeStays();
      } else {
        NoLinesLeft();
      }
    }
  }

  lemma NothingWithoutBox(agent: AgentType)
    ensures WithoutBox(agent, "") == if agent.Amp? then AMP_WELCOME else ""
  {
    assert Lines("") == [""];
    NoBoxInNothing();
    assert [""][..1] == [""];
  }

  lemma NoBoxInNothing()
    ensures AboveBox([""]) == 1 && AboveOpencodeBox([""]) == 1 && AboveAmpBox([""]) == 1
  {
    assert !HasPromptSign("");
    assert TrimSpace("") == "";
    assert !OpensAmpBox("");
  }

  lemma NoEchoInNothing(inputLines: seq<string>)
    ensures EchoLine([""], inputLines) == -1
  {
    assert [""][..0] == [];
    assert Runes([""]) == "";
  }
}
