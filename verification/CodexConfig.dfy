/**
 lib/mcpconfig/codex.go: replacing the mcp_servers sections of a TOML file by
 line surgery, so that everything else in the file survives as written.
 */
module CodexConfig {
  import opened Text

  // ---------------------------------------------------------- kinds of lines

  datatype Kind = Marker | McpHeader | OtherHeader | McpAssign | Other

  /** `\s` of a Go regular expression. */
  predicate IsReSpace(c: char) {
    c == '\t' || c == '\n' || c as int == 12 || c == '\r' || c == ' '
  }

  function SkipSpace(s: string): string {
    TrimLeft(s, IsReSpace)
  }

  const NAME := "mcp_servers"
  const QUOTED_NAME := "\"mcp_servers\""

  /** What follows the table's name and the spaces around it. */
  function AfterName(s: string): Option<string> {
    var t := SkipSpace(s);
    if HasPrefix(t, QUOTED_NAME) then Some(SkipSpace(t[|QUOTED_NAME|..]))
    else if HasPrefix(t, NAME) then Some(SkipSpace(t[|NAME|..]))
    else None
  }

  /** anyHeaderRe. */
  predicate IsHeader(line: string) {
    HasPrefix(SkipSpace(line), "[")
  }

  /** mcpHeaderRe: one or two brackets, the name, and the end of the name. */
  predicate IsMcpHeader(line: string) {
    IsHeader(line) &&
    var inside := SkipSpace(line)[1..];
    var after := AfterName(if HasPrefix(inside, "[") then inside[1..] else inside);
    after.Some? && (HasPrefix(after.value, "]") || HasPrefix(after.value, "."))
  }

  /** rootMcpAssignRe. */
  predicate IsMcpAssign(line: string) {
    var after := AfterName(line);
    after.Some? && HasPrefix(after.value, "=")
  }

  const BEGIN := "# >>> managed by agentapi"
  const END := "# <<< managed by agentapi"

  /** managedMarkerRe. */
  predicate IsMarker(line: string) {
    var t := SkipSpace(line);
    HasPrefix(t, BEGIN) || HasPrefix(t, END)
  }

  function KindOf(line: string): Kind {
    if IsMarker(line) then Marker
    else if IsHeader(line) then (if IsMcpHeader(line) then McpHeader else OtherHeader)
    else if IsMcpAssign(line) then McpAssign
    else Other
  }

  // ------------------------------------------ the scans are the expressions

  ghost predicate AllReSpace(s: string) {
    forall i :: 0 <= i < |s| ==> IsReSpace(s[i])
  }

  predicate IsName(name: string) {
    name == NAME || name == QUOTED_NAME
  }

  lemma SkipSpaceIs(lead: string, rest: string)
    requires AllReSpace(lead) && (rest != "" ==> !IsReSpace(rest[0]))
    ensures SkipSpace(lead + rest) == rest
  {
    TrimLeftIs(lead, rest, IsReSpace);
  }

  lemma SkipSpaceSplits(s: string) returns (lead: string)
    ensures s == lead + SkipSpace(s) && AllReSpace(lead)
    ensures SkipSpace(s) != "" ==> !IsReSpace(SkipSpace(s)[0])
  {
    CutBefore(s, 0, IsReSpace);
    lead := s[..FirstUncut(s, 0, IsReSpace)];
  }

  lemma NameFound(gap: string, name: string, tail: string)
    requires AllReSpace(gap) && IsName(name)
    ensures AfterName(gap + name + tail) == Some(SkipSpace(tail))
  {
    assert gap + name + tail == gap + (name + tail);
    SkipSpaceIs(gap, name + tail);
    assert (name + tail)[|name|..] == tail;
    assert name == NAME ==> (name + tail)[0] == 'm';
  }

  lemma NameSplits(s: string) returns (gap: string, name: string, tail: string)
    requires AfterName(s).Some?
    ensures s == gap + name + tail && AllReSpace(gap) && IsName(name) && AfterName(s) == Some(SkipSpace(tail))
  {
    gap := SkipSpaceSplits(s);
    var t := SkipSpace(s);
    name := if HasPrefix(t, QUOTED_NAME) then QUOTED_NAME else NAME;
    tail := t[|name|..];
    assert t == name + tail;
  }

  /** A line as mcpHeaderRe reads it. */
  datatype HeaderMatch = HeaderMatch(lead: string, brackets: string, gap: string, name: string, space: string, rest: string)

  ghost predicate MatchesHeader(line: string, m: HeaderMatch) {
    && line == m.lead + (m.brackets + (m.gap + m.name + (m.space + m.rest)))
    && AllReSpace(m.lead) && (m.brackets == "[" || m.brackets == "[[")
    && AllReSpace(m.gap) && IsName(m.name) && AllReSpace(m.space)
    && m.rest != "" && (m.rest[0] == ']' || m.rest[0] == '.')
  }

  lemma HeaderFound(line: string, lead: string, brackets: string, inner: string, rest: string)
    requires line == lead + (brackets + inner) && AllReSpace(lead) && (brackets == "[" || brackets == "[[")
    requires inner != "" && inner[0] != '[' && AfterName(inner) == Some(rest)
    requires rest != "" && (rest[0] == ']' || rest[0] == '.')
    ensures IsMcpHeader(line)
  {
    SkipSpaceIs(lead, brackets + inner);
    assert (brackets + inner)[1..] == if brackets == "[" then inner else "[" + inner;
    assert ("[" + inner)[1..] == inner;
  }

  lemma HeaderMatchIsFound(line: string, m: HeaderMatch)
    requires MatchesHeader(line, m)
    ensures IsMcpHeader(line)
  {
    NameFound(m.gap, m.name, m.space + m.rest);
    SkipSpaceIs(m.space, m.rest);
    NameIsNoBracket(m.gap, m.name, m.space + m.rest);
    HeaderFound(line, m.lead, m.brackets, m.gap + m.name + (m.space + m.rest), m.rest);
  }

  lemma NameIsNoBracket(gap: string, name: string, tail: string)
    requires AllReSpace(gap) && IsName(name)
    ensures gap + name + tail != "" && (gap + name + tail)[0] != '['
  {
    assert name == NAME ==> name[0] == 'm';
    assert name == QUOTED_NAME ==> name[0] == '"';
    if gap != "" {
      assert IsReSpace(gap[0]);
    }
  }

  lemma FoundHeaderMatches(line: string) returns (m: HeaderMatch)
    requires IsMcpHeader(line)
    ensures MatchesHeader(line, m)
  {
    var lead := SkipSpaceSplits(line);
    var body := SkipSpace(line);
    var inside := body[1..];
    var brackets := if HasPrefix(inside, "[") then "[[" else "[";
    var inner := if HasPrefix(inside, "[") then inside[1..] else inside;
    assert body == brackets + inner;
    var gap, name, tail := NameSplits(inner);
    var space := SkipSpaceSplits(tail);
    m := HeaderMatch(lead, brackets, gap, name, space, SkipSpace(tail));
  }

  /** The scan for a header of mcp_servers is the regular expression. */
  lemma McpHeaderMeans(line: string)
    ensures IsMcpHeader(line) <==> exists m :: MatchesHeader(line, m)
  {
    if IsMcpHeader(line) {
      var m := FoundHeaderMatches(line);
    }
    if m :| MatchesHeader(line, m) {
      HeaderMatchIsFound(line, m);
    }
  }

  ghost predicate MatchesAssign(line: string, gap: string, name: string, space: string, rest: string) {
    && line == gap + name + (space + ("=" + rest))
    && AllReSpace(gap) && IsName(name) && AllReSpace(space)
  }

  lemma AssignFound(line: string, gap: string, name: string, space: string, rest: string)
    requires MatchesAssign(line, gap, name, space, rest)
    ensures IsMcpAssign(line)
  {
    NameFound(gap, name, space + ("=" + rest));
    SkipSpaceIs(space, "=" + rest);
  }

  lemma AssignSplits(line: string) returns (gap: string, name: string, space: string, rest: string)
    requires IsMcpAssign(line)
    ensures MatchesAssign(line, gap, name, space, rest)
  {
    var tail;
    gap, name, tail := NameSplits(line);
    space := SkipSpaceSplits(tail);
    rest := SkipSpace(tail)[1..];
    assert SkipSpace(tail) == "=" + rest;
  }

  /** So is the scan for an assignment: the name, white space around it, and an equals sign. */
  lemma McpAssignMeans(line: string)
    ensures IsMcpAssign(line) <==>
      exists gap: string, name: string, space: string, rest: string :: MatchesAssign(line, gap, name, space, rest)
  {
    if IsMcpAssign(line) {
      var gap, name, space, rest := AssignSplits(line);
    }
    if gap: string, name: string, space: string, rest: string :| MatchesAssign(line, gap, name, space, rest) {
      AssignFound(line, gap, name, space, rest);
    }
  }

  ghost predicate MatchesAfterSpace(line: string, lead: string, begin: string, rest: string) {
    AllReSpace(lead) && line == lead + (begin + rest)
  }

  lemma SpaceThenText(line: string, begin: string)
    requires begin != "" && !IsReSpace(begin[0])
    ensures HasPrefix(SkipSpace(line), begin) <==>
      exists lead: string, rest: string :: MatchesAfterSpace(line, lead, begin, rest)
  {
    if HasPrefix(SkipSpace(line), begin) {
      var lead := SkipSpaceSplits(line);
      var rest := SkipSpace(line)[|begin|..];
      assert SkipSpace(line) == begin + rest;
      assert MatchesAfterSpace(line, lead, begin, rest);
    }
    if lead: string, rest: string :| MatchesAfterSpace(line, lead, begin, rest) {
      SkipSpaceIs(lead, begin + rest);
    }
  }

  /** Any header is white space and a bracket. */
  lemma HeaderMeans(line: string)
    ensures IsHeader(line) <==> exists lead: string, rest: string :: MatchesAfterSpace(line, lead, "[", rest)
  {
    SpaceThenText(line, "[");
  }

  /** A marker is white space and the beginning of either comment that frames the managed block. */
  lemma MarkerMeans(line: string)
    ensures IsMarker(line) <==>
      || (exists lead: string, rest: string :: MatchesAfterSpace(line, lead, BEGIN, rest))
      || (exists lead: string, rest: string :: MatchesAfterSpace(line, lead, END, rest))
  {
    assert BEGIN[0] == END[0] == '#';
    SpaceThenText(line, BEGIN);
    SpaceThenText(line, END);
  }

  predicate IsHeaderKind(k: Kind) {
    k == McpHeader || k == OtherHeader
  }

  // -------------------------------------------------------------- the filter

  /** Which table the lines after the first `n` belong to. */
  datatype Place = Root | McpSection | OtherTable

  function PlaceAfter<T>(lines: seq<T>, kind: T -> Kind, n: nat): Place
    requires n <= |lines|
  {
    if n == 0 then Root
    else match kind(lines[n - 1])
      case McpHeader => McpSection
      case OtherHeader => OtherTable
      case _ => PlaceAfter(lines, kind, n - 1)
  }

  predicate Keeps<T>(lines: seq<T>, kind: T -> Kind, i: nat)
    requires i < |lines|
  {
    var k := kind(lines[i]);
    && k != Marker
    && (k == McpAssign ==> PlaceAfter(lines, kind, i) != Root)
    && PlaceAfter(lines, kind, i + 1) != McpSection
  }

  /** The lines kept of the first `n`, in order. */
  function KeptLines<T>(lines: seq<T>, kind: T -> Kind, n: nat): seq<T>
    requires n <= |lines|
  {
    if n == 0 then [] else KeptLines(lines, kind, n - 1) + if Keeps(lines, kind, n - 1) then [lines[n - 1]] else []
  }

  function Filtered<T>(lines: seq<T>, kind: T -> Kind): seq<T> {
    KeptLines(lines, kind, |lines|)
  }

  ghost predicate NoHeaderBetween<T>(lines: seq<T>, kind: T -> Kind, a: int, b: nat)
    requires b <= |lines|
  {
    forall i :: 0 <= i && a < i < b ==> !IsHeaderKind(kind(lines[i]))
  }

  /** A place is the table of the last header before it; there is none before the root table's lines. */
  lemma {:induction false} PlaceIsLastHeader<T>(lines: seq<T>, kind: T -> Kind, n: nat, h: nat)
    requires n <= |lines|
    ensures PlaceAfter(lines, kind, n) == Root <==> NoHeaderBetween(lines, kind, -1, n)
    ensures h < n && IsHeaderKind(kind(lines[h])) && NoHeaderBetween(lines, kind, h, n) ==>
      PlaceAfter(lines, kind, n) == if kind(lines[h]) == McpHeader then McpSection else OtherTable
  {
    if n > 0 {
      PlaceIsLastHeader(lines, kind, n - 1, h);
      assert NoHeaderBetween(lines, kind, -1, n) <==>
        NoHeaderBetween(lines, kind, -1, n - 1) && !IsHeaderKind(kind(lines[n - 1]));
      if h < n && NoHeaderBetween(lines, kind, h, n) && h != n - 1 {
        assert NoHeaderBetween(lines, kind, h, n - 1);
      }
    }
  }

  /** The filter in the file's own terms: exactly the lines outside mcp_servers sections, markers and root assignments. */
  lemma FilterKeepsTheRest<T>(lines: seq<T>, kind: T -> Kind, i: nat)
    requires i < |lines|
    ensures Keeps(lines, kind, i) <==>
      && kind(lines[i]) != Marker
      && !(kind(lines[i]) == McpAssign && NoHeaderBetween(lines, kind, -1, i))
      && !(exists h: nat :: h <= i && kind(lines[h]) == McpHeader && NoHeaderBetween(lines, kind, h, i + 1))
  {
    PlaceIsLastHeader(lines, kind, i, 0);
    if h: nat :| h <= i && kind(lines[h]) == McpHeader && NoHeaderBetween(lines, kind, h, i + 1) {
      PlaceIsLastHeader(lines, kind, i + 1, h);
    }
    if PlaceAfter(lines, kind, i + 1) == McpSection {
      var h := SectionHasHeader(lines, kind, i + 1);
    }
  }

  lemma {:induction false} SectionHasHeader<T>(lines: seq<T>, kind: T -> Kind, n: nat) returns (h: nat)
    requires n <= |lines| && PlaceAfter(lines, kind, n) == McpSection
    ensures h < n && kind(lines[h]) == McpHeader && NoHeaderBetween(lines, kind, h, n)
  {
    if kind(lines[n - 1]) == McpHeader {
      h := n - 1;
    } else {
      h := SectionHasHeader(lines, kind, n - 1);
    }
  }

  // --------------------------------------------------- filtering, put together

  lemma {:induction false} PlaceOfPrefix<T>(lines: seq<T>, more: seq<T>, kind: T -> Kind, n: nat)
    requires n <= |lines|
    ensures PlaceAfter(lines + more, kind, n) == PlaceAfter(lines, kind, n)
  {
    if n > 0 {
      PlaceOfPrefix(lines, more, kind, n - 1);
    }
  }

  lemma {:induction false} KeptOfPrefix<T>(lines: seq<T>, more: seq<T>, kind: T -> Kind, n: nat)
    requires n <= |lines|
    ensures KeptLines(lines + more, kind, n) == KeptLines(lines, kind, n)
  {
    if n > 0 {
      KeptOfPrefix(lines, more, kind, n - 1);
      PlaceOfPrefix(lines, more, kind, n - 1);
      PlaceOfPrefix(lines, more, kind, n);
    }
  }

  ghost predicate AllKept<T>(lines: seq<T>, kind: T -> Kind) {
    forall i: nat :: i < |lines| ==> Keeps(lines, kind, i)
  }

  lemma {:induction false} AllKeptAreKept<T>(lines: seq<T>, kind: T -> Kind, n: nat)
    requires n <= |lines| && AllKept(lines, kind)
    ensures KeptLines(lines, kind, n) == lines[..n]
  {
    if n > 0 {
      AllKeptAreKept(lines, kind, n - 1);
      assert Keeps(lines, kind, n - 1);
    }
  }

  lemma AllKeptPrefix<T>(lines: seq<T>, more: seq<T>, kind: T -> Kind)
    requires AllKept(lines + more, kind)
    ensures AllKept(lines, kind)
  {
    forall i: nat | i < |lines|
      ensures Keeps(lines, kind, i)
    {
      assert Keeps(lines + more, kind, i);
      PlaceOfPrefix(lines, more, kind, i);
      PlaceOfPrefix(lines, more, kind, i + 1);
    }
  }

  lemma AllKeptEndsOutside<T>(lines: seq<T>, kind: T -> Kind)
    requires AllKept(lines, kind)
    ensures PlaceAfter(lines, kind, |lines|) != McpSection
  {
    if lines != [] {
      assert Keeps(lines, kind, |lines| - 1);
    }
  }

  /** One more line after lines that are all kept: whether it stays depends on where they end. */
  lemma AllKeptSnoc<T>(lines: seq<T>, line: T, kind: T -> Kind)
    requires AllKept(lines, kind)
    requires kind(line) == OtherHeader || kind(line) == Other ||
      (kind(line) == McpAssign && PlaceAfter(lines, kind, |lines|) != Root)
    ensures AllKept(lines + [line], kind)
  {
    var all := lines + [line];
    AllKeptEndsOutside(lines, kind);
    forall i: nat | i < |all|
      ensures Keeps(all, kind, i)
    {
      PlaceOfPrefix(lines, [line], kind, if i < |lines| then i else |lines|);
      if i < |lines| {
        assert Keeps(lines, kind, i);
        PlaceOfPrefix(lines, [line], kind, i + 1);
      }
    }
  }

  /** What the filter keeps, it keeps again; and it ends in the same table unless that was cut. */
  lemma {:induction false} KeptIsAllKept<T>(lines: seq<T>, kind: T -> Kind, n: nat)
    requires n <= |lines|
    ensures AllKept(KeptLines(lines, kind, n), kind)
    ensures var kept := KeptLines(lines, kind, n);
      PlaceAfter(lines, kind, n) == McpSection || PlaceAfter(kept, kind, |kept|) == PlaceAfter(lines, kind, n)
  {
    if n > 0 {
      KeptIsAllKept(lines, kind, n - 1);
      var before, line := KeptLines(lines, kind, n - 1), lines[n - 1];
      if Keeps(lines, kind, n - 1) {
        AllKeptSnoc(before, line, kind);
        PlaceOfPrefix(before, [line], kind, |before|);
      } else {
        assert before + [] == before;
      }
    }
  }

  lemma FilterIsIdempotent<T>(lines: seq<T>, kind: T -> Kind)
    ensures Filtered(Filtered(lines, kind), kind) == Filtered(lines, kind)
  {
    var kept := Filtered(lines, kind);
    KeptIsAllKept(lines, kind, |lines|);
    AllKeptAreKept(kept, kind, |kept|);
    assert kept[..|kept|] == kept;
  }

  /** Lines that no table but mcp_servers begins in, the first of them a marker or such a header. */
  ghost predicate IsMcpBlock<T>(block: seq<T>, kind: T -> Kind) {
    forall i :: 0 <= i < |block| ==> kind(block[i]) != OtherHeader
  }

  lemma {:induction false} BlockIsCut<T>(lines: seq<T>, block: seq<T>, kind: T -> Kind, n: nat)
    requires n <= |block| && IsMcpBlock(block, kind)
    requires PlaceAfter(lines, kind, |lines|) == McpSection
    ensures PlaceAfter(lines + block, kind, |lines| + n) == McpSection
    ensures KeptLines(lines + block, kind, |lines| + n) == Filtered(lines, kind)
  {
    if n == 0 {
      PlaceOfPrefix(lines, block, kind, |lines|);
      KeptOfPrefix(lines, block, kind, |lines|);
    } else {
      BlockIsCut(lines, block, kind, n - 1);
    }
  }

  /** A managed block put behind kept lines is cut without a trace. */
  lemma ManagedBlockIsCut<T>(lines: seq<T>, marker: T, header: T, block: seq<T>, kind: T -> Kind)
    requires AllKept(lines, kind)
    requires kind(marker) == Marker && kind(header) == McpHeader && IsMcpBlock(block, kind)
    ensures Filtered(lines + [marker, header] + block, kind) == lines
  {
    var begun := lines + [marker, header];
    AllKeptAreKept(lines, kind, |lines|);
    KeptOfPrefix(lines, [marker, header], kind, |lines|);
    PlaceOfPrefix(lines, [marker, header], kind, |lines|);
    assert lines[..|lines|] == lines;
    assert KeptLines(begun, kind, |lines| + 1) == lines;
    BlockIsCut(begun, block, kind, |block|);
  }

  // ----------------------------------------------------------------- Replace

  const BEGIN_MARKER := BEGIN + " (PUT /mcp) >>>"
  const END_MARKER := END + " <<<"

  /** The file's text without its mcp_servers parts. */
  function Content(file: string): string {
    TrimRight(Unlines(Filtered(Lines(file), KindOf)), IsNewline)
  }

  function WithBlock(content: string, begin: string, encoded: string, end: string): string {
    (if encoded == "" then content
     else (if content == "" then "" else content + "\n") + "\n" + begin + "\n" + encoded + end)
    + "\n"
  }

  function Replaced(file: string, encoded: string): string {
    WithBlock(Content(file), BEGIN_MARKER, encoded, END_MARKER)
  }

  /**
   What the TOML encoder is relied on for: nothing for no servers, else lines
   that begin with an mcp_servers header, hold no other header, and end in a
   newline.
   */
  ghost predicate IsEncoded(encoded: string) {
    encoded == "" ||
    (encoded[|encoded| - 1] == '\n' &&
     var lines := Lines(encoded[..|encoded| - 1]);
     KindOf(lines[0]) == McpHeader && IsMcpBlock(lines, KindOf))
  }

  ghost predicate IsMarkerLine(line: string) {
    KindOf(line) == Marker && '\n' !in line
  }

  lemma CommentIsMarker(line: string, begin: string, rest: string)
    requires begin != "" && begin[0] == '#' && (begin == BEGIN || begin == END)
    requires line == begin + rest && '\n' !in begin && '\n' !in rest
    ensures IsMarkerLine(line)
  {
    assert !IsReSpace(line[0]);
    assert SkipSpace(line) == line;
  }

  lemma BeginIsMarker()
    ensures IsMarkerLine(BEGIN_MARKER)
  {
    CommentIsMarker(BEGIN_MARKER, BEGIN, " (PUT /mcp) >>>");
  }

  lemma EndIsMarker()
    ensures IsMarkerLine(END_MARKER)
  {
    CommentIsMarker(END_MARKER, END, " <<<");
  }

  lemma EmptyLineIsOther()
    ensures KindOf("") == Other
  {
    assert SkipSpace("") == "";
  }

  lemma NewlineEndsLine(text: string)
    ensures Lines(text + "\n") == Lines(text) + [""]
  {
    SplitSeparated(text, "", '\n');
    assert text + ['\n'] + "" == text + "\n";
  }

  /** Cutting newlines off the end cuts empty lines off the end. */
  lemma {:induction false} CuttingNewlinesKeepsLines(text: string, j: nat)
    requires j <= |text| && AllKept(Lines(text[..j]), KindOf)
    ensures AllKept(Lines(text[..EndUncut(text, j, IsNewline)]), KindOf)
  {
    if j > 0 && text[j - 1] == '\n' {
      var shorter := text[..j - 1];
      assert text[..j] == shorter + "\n";
      NewlineEndsLine(shorter);
      AllKeptPrefix(Lines(shorter), [""], KindOf);
      CuttingNewlinesKeepsLines(text, j - 1);
    }
  }

  lemma ContentIsKept(file: string)
    ensures AllKept(Lines(Content(file)), KindOf)
    ensures Content(file) != "" ==> Content(file)[|Content(file)| - 1] != '\n'
  {
    var lines := Lines(file);
    var kept := Filtered(lines, KindOf);
    var text := Unlines(kept);
    KeptIsAllKept(lines, KindOf, |lines|);
    UnlinesOfLines(file);
    KeptAreClean(lines, |lines|);
    LinesOfUnlines(kept);
    EmptyLineIsOther();
    if kept == [] {
      AllKeptSnoc([], "", KindOf);
      assert [] + [""] == [""];
    }
    assert text[..|text|] == text;
    CuttingNewlinesKeepsLines(text, |text|);
  }

  lemma {:induction false} KeptAreClean(lines: seq<string>, n: nat)
    requires n <= |lines| && AreLines(lines)
    ensures AreLines(KeptLines(lines, KindOf, n))
  {
    if n > 0 {
      KeptAreClean(lines, n - 1);
    }
  }

  /** Text whose lines all stay, followed by one newline, is its own content. */
  lemma KeptTextIsContent(file: string, kept: string)
    requires kept != "" ==> kept[|kept| - 1] != '\n'
    requires Filtered(Lines(file), KindOf) == Lines(kept) || Filtered(Lines(file), KindOf) == Lines(kept) + [""]
    ensures Content(file) == kept
  {
    NewlineEndsLine(kept);
    UnlinesOfLines(kept);
    UnlinesOfLines(kept + "\n");
    TrimRightIs(kept, "\n", IsNewline);
    TrimRightIs(kept, "", IsNewline);
    assert kept + "" == kept;
  }

  lemma LinesOfJoined(a: string, b: string)
    ensures Lines(a + "\n" + b) == Lines(a) + Lines(b)
  {
    SplitSeparated(a, b, '\n');
    assert a + ['\n'] + b == a + "\n" + b;
  }

  lemma BlockText(head: string, begin: string, body: string, end: string)
    ensures head + "\n" + begin + "\n" + (body + "\n") + end + "\n"
      == head + "\n" + (begin + "\n" + (body + "\n" + (end + "\n" + "")))
  {
  }

  /** The lines of the rewritten file. */
  lemma LinesWithBlock(content: string, begin: string, body: string, end: string)
    requires '\n' !in begin && '\n' !in end
    ensures Lines(WithBlock(content, begin, body + "\n", end)) ==
      Lines(content) + (if content == "" then [] else [""]) + [begin] + Lines(body) + [end, ""]
  {
    var head := if content == "" then "" else content + "\n";
    NewlineEndsLine(content);
    BlockText(head, begin, body, end);
    LinesOfJoined(end, "");
    LinesOfJoined(body, end + "\n" + "");
    LinesOfJoined(begin, body + "\n" + (end + "\n" + ""));
    LinesOfJoined(head, begin + "\n" + (body + "\n" + (end + "\n" + "")));
    SplitClean(begin, '\n');
    SplitClean(end, '\n');
    assert [end] + [""] == [end, ""];
  }

  lemma BlockLeavesContent(content: string, begin: string, body: string, end: string)
    requires AllKept(Lines(content), KindOf) && (content != "" ==> content[|content| - 1] != '\n')
    requires IsMarkerLine(begin) && IsMarkerLine(end)
    requires KindOf(Lines(body)[0]) == McpHeader && IsMcpBlock(Lines(body), KindOf)
    ensures Content(WithBlock(content, begin, body + "\n", end)) == content
  {
    EmptyLineIsOther();
    AllKeptSnoc(Lines(content), "", KindOf);
    LinesWithBlock(content, begin, body, end);
    var before := Lines(content) + if content == "" then [] else [""];
    assert before == Lines(content) || before == Lines(content) + [""];
    BlockIsMcp(Lines(body), end);
    BlockRegrouped(before, begin, Lines(body), end);
    ManagedBlockIsCut(before, begin, Lines(body)[0], Lines(body)[1..] + [end, ""], KindOf);
    KeptTextIsContent(WithBlock(content, begin, body + "\n", end), content);
  }

  lemma BlockIsMcp(lines: seq<string>, end: string)
    requires IsMcpBlock(lines, KindOf) && lines != [] && KindOf(end) == Marker && KindOf("") == Other
    ensures IsMcpBlock(lines[1..] + [end, ""], KindOf)
  {
  }

  lemma BlockRegrouped(before: seq<string>, begin: string, lines: seq<string>, end: string)
    requires lines != []
    ensures before + [begin] + lines + [end, ""] == before + [begin, lines[0]] + (lines[1..] + [end, ""])
  {
  }

  /** Replacing leaves everything that is not the servers' as it was. */
  lemma ReplacingKeepsContent(file: string, encoded: string)
    requires IsEncoded(encoded)
    ensures Content(Replaced(file, encoded)) == Content(file)
  {
    var content := Content(file);
    ContentIsKept(file);
    if encoded == "" {
      EmptyLineIsOther();
      AllKeptSnoc(Lines(content), "", KindOf);
      NewlineEndsLine(content);
      var lines := Lines(content) + [""];
      AllKeptAreKept(lines, KindOf, |lines|);
      assert lines[..|lines|] == lines;
      KeptTextIsContent(content + "\n", content);
    } else {
      var body := encoded[..|encoded| - 1];
      assert encoded == body + "\n";
      BeginIsMarker();
      EndIsMarker();
      BlockLeavesContent(content, BEGIN_MARKER, body, END_MARKER);
    }
  }

  /** The last set wins, byte for byte: what was there before leaves no trace, and blocks never stack. */
  lemma ReplacingTwiceIsReplacingOnce(file: string, first: string, second: string)
    requires IsEncoded(first)
    ensures Replaced(Replaced(file, first), second) == Replaced(file, second)
  {
    ReplacingKeepsContent(file, first);
  }

  function MarkerCount<T>(lines: seq<T>, kind: T -> Kind): nat {
    if lines == [] then 0
    else MarkerCount(lines[..|lines| - 1], kind) + if kind(lines[|lines| - 1]) == Marker then 1 else 0
  }

  lemma {:induction false} MarkerCountConcat<T>(a: seq<T>, b: seq<T>, kind: T -> Kind)
    ensures MarkerCount(a + b, kind) == MarkerCount(a, kind) + MarkerCount(b, kind)
  {
    if b == [] {
      assert a + b == a;
    } else {
      var n := |b| - 1;
      MarkerCountConcat(a, b[..n], kind);
      assert (a + b)[..|a| + n] == a + b[..n];
    }
  }

  lemma {:induction false} KeptLinesHoldNoMarker<T>(lines: seq<T>, kind: T -> Kind, n: nat)
    requires AllKept(lines, kind) && n <= |lines|
    ensures MarkerCount(lines[..n], kind) == 0
  {
    if n > 0 {
      KeptLinesHoldNoMarker(lines, kind, n - 1);
      assert Keeps(lines, kind, n - 1);
      assert lines[..n][..n - 1] == lines[..n - 1];
    }
  }

  lemma CountBlock<T>(kept: seq<T>, begin: T, body: seq<T>, end: T, last: T, kind: T -> Kind)
    requires MarkerCount(kept, kind) == 0
    requires kind(begin) == kind(end) == Marker && kind(last) != Marker
    ensures MarkerCount(kept + [begin] + body + [end, last], kind) == 2 + MarkerCount(body, kind)
  {
    assert [end, last][..1] == [end];
    MarkerCountConcat(kept, [begin], kind);
    MarkerCountConcat(kept + [begin], body, kind);
    MarkerCountConcat(kept + [begin] + body, [end, last], kind);
  }

  lemma KeptTextHoldsNoMarker(content: string)
    requires AllKept(Lines(content), KindOf)
    ensures MarkerCount(Lines(content), KindOf) == 0 && MarkerCount(Lines(content) + [""], KindOf) == 0
  {
    var kept := Lines(content);
    EmptyLineIsOther();
    AllKeptSnoc(kept, "", KindOf);
    KeptLinesHoldNoMarker(kept, KindOf, |kept|);
    KeptLinesHoldNoMarker(kept + [""], KindOf, |kept| + 1);
    assert kept[..|kept|] == kept && (kept + [""])[..|kept| + 1] == kept + [""];
  }

  lemma BlockAddsTwoMarkers(content: string, begin: string, body: string, end: string)
    requires AllKept(Lines(content), KindOf)
    requires IsMarkerLine(begin) && IsMarkerLine(end)
    ensures MarkerCount(Lines(WithBlock(content, begin, body + "\n", end)), KindOf) == 2 + MarkerCount(Lines(body), KindOf)
  {
    KeptTextHoldsNoMarker(content);
    LinesWithBlock(content, begin, body, end);
    EmptyLineIsOther();
    var kept := Lines(content) + if content == "" then [] else [""];
    assert kept == Lines(content) || kept == Lines(content) + [""];
    CountBlock(kept, begin, Lines(body), end, "", KindOf);
  }

  /**
   However often the servers were replaced before, there is one managed block
   or none: two markers, besides any that the encoder itself writes.
   */
  lemma OneManagedBlock(file: string, encoded: string)
    requires IsEncoded(encoded)
    ensures MarkerCount(Lines(Replaced(file, encoded)), KindOf)
      == if encoded == "" then 0 else 2 + MarkerCount(Lines(encoded[..|encoded| - 1]), KindOf)
  {
    var content := Content(file);
    ContentIsKept(file);
    if encoded == "" {
      NewlineEndsLine(content);
      KeptTextHoldsNoMarker(content);
    } else {
      var body := encoded[..|encoded| - 1];
      assert encoded == body + "\n";
      BeginIsMarker();
      EndIsMarker();
      BlockAddsTwoMarkers(content, BEGIN_MARKER, body, END_MARKER);
    }
  }

  // --------------------------------------------------------------- the store

  /** The config file, and the store that rewrites it. */
  class CodexStore {
    var file: Option<string>

    constructor (file: Option<string>)
      ensures this.file == file
    {
      this.file := file;
    }

    /** The line filter of Replace; `kind` is the four expressions. */
    static method KeepOthers<T>(lines: seq<T>, kind: T -> Kind) returns (kept: seq<T>)
      ensures kept == Filtered(lines, kind)
    {
      kept := [];
      var inMcpSection, inRootTable := false, true;
      var i := 0;
      while i < |lines|
        invariant 0 <= i <= |lines|
        invariant inMcpSection <==> PlaceAfter(lines, kind, i) == McpSection
        invariant inRootTable <==> PlaceAfter(lines, kind, i) == Root
        invariant kept == KeptLines(lines, kind, i)
      {
        var line := lines[i];
        i := i + 1;
        if kind(line) == Marker {
          continue;
        }
        if IsHeaderKind(kind(line)) {
          inRootTable := false;
          inMcpSection := kind(line) == McpHeader;
        } else if inRootTable && kind(line) == McpAssign {
          continue;
        }
        if inMcpSection {
          continue;
        }
        kept := kept + [line];
      }
    }

    static method Appended(kept: string, begin: string, encoded: string, end: string) returns (content: string)
      ensures content == WithBlock(kept, begin, encoded, end)
    {
      content := kept;
      if encoded != "" {
        if content != "" {
          content := content + "\n";
        }
        assert content + ("\n" + begin + "\n" + encoded + end) == content + "\n" + begin + "\n" + encoded + end;
        content := content + ("\n" + begin + "\n" + encoded + end);
      }
      content := content + "\n";
    }

    /**
     Replace, given how reading, encoding and creating the directory went.  On
     any of these failures the file is left as it was; a missing file counts
     as an empty one.
     */
    method Replace(readable: bool, encoded: Option<string>, dirMade: bool) returns (ok: bool)
      modifies this
      ensures ok == (readable && encoded.Some? && dirMade)
      ensures !ok ==> file == old(file)
      ensures ok ==>
        file == Some(Replaced(if old(file).Some? then old(file).value else "", encoded.value))
    {
      if !readable {
        return false;
      }
      var data := if file.Some? then file.value else "";
      var kept := KeepOthers(Lines(data), KindOf);
      var content := TrimRight(Unlines(kept), IsNewline);
      if encoded.None? {
        return false;
      }
      content := Appended(content, BEGIN_MARKER, encoded.value, END_MARKER);
      if !dirMade {
        return false;
      }
      file := Some(content);
      return true;
    }
  }
}
