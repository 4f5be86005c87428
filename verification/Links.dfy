/**
 lib/httpapi/links.go: finding URLs in text, and putting together those the
 terminal broke at its right edge.
 */
module Links {
  import opened Text

  // ---------------------------------------------------------------- matching

  /** The characters a URL is made of: ASCII without white space, quotes, angle brackets and backslash. */
  predicate IsUrlChar(c: char) {
    && (c as int) < 0x80
    && c != '\t' && c != '\n' && c as int != 12 && c != '\r' && c != ' '
    && c != '"' && c != '\'' && c != '<' && c != '>' && c != '`' && c != '\\'
  }

  /** The length of the scheme that `s` begins with, 0 for none. */
  function SchemeLen(s: string): (n: nat)
    ensures n <= |s|
  {
    if HasPrefix(s, "https://") then 8
    else if HasPrefix(s, "http://") then 7
    else if HasPrefix(s, "www.") then 4
    else 0
  }

  /** How many characters from the front on may belong to a URL. */
  function RunLen(s: string): (n: nat)
    ensures n <= |s|
  {
    if s != "" && IsUrlChar(s[0]) then 1 + RunLen(s[1..]) else 0
  }

  /** The length of the URL that `s` begins with, 0 for none: a scheme and at least one character more. */
  function MatchLen(s: string): (n: nat)
    ensures n <= |s|
    ensures n > 0 ==> 0 < SchemeLen(s) < n
  {
    var scheme := SchemeLen(s);
    if scheme > 0 && RunLen(s[scheme..]) > 0 then scheme + RunLen(s[scheme..]) else 0
  }

  /** FindAllString: leftmost matches that do not overlap, each as long as possible. */
  function FindAll(s: string): seq<string> {
    if s == "" then []
    else
      var n := MatchLen(s);
      if n > 0 then [s[..n]] + FindAll(s[n..]) else FindAll(s[1..])
  }

  predicate AllUrlChars(s: string) {
    forall i :: 0 <= i < |s| ==> IsUrlChar(s[i])
  }

  /** A whole URL: a scheme, and something behind it. */
  predicate IsUrl(s: string) {
    AllUrlChars(s) && 0 < SchemeLen(s) < |s|
  }

  lemma {:induction false} RunIs(s: string)
    ensures AllUrlChars(s[..RunLen(s)])
    ensures RunLen(s) < |s| ==> !IsUrlChar(s[RunLen(s)])
  {
    if s != "" && IsUrlChar(s[0]) {
      RunIs(s[1..]);
      var n := RunLen(s);
      assert forall i :: 0 < i < n ==> s[..n][i] == s[1..][..n - 1][i - 1];
    }
  }

  lemma {:induction false} RunOf(run: string, rest: string)
    requires AllUrlChars(run) && (rest != "" ==> !IsUrlChar(rest[0]))
    ensures RunLen(run + rest) == |run|
  {
    if run != "" {
      RunOf(run[1..], rest);
      assert (run + rest)[1..] == run[1..] + rest;
    } else {
      assert run + rest == rest;
    }
  }

  /** A scheme is in reach of the first eight characters. */
  lemma SchemeOfPrefix(head: string, rest: string)
    requires 0 < SchemeLen(head) < |head| && AllUrlChars(head)
    ensures SchemeLen(head + rest) == SchemeLen(head)
  {
    var s := head + rest;
    assert s[..SchemeLen(head)] == head[..SchemeLen(head)];
    if SchemeLen(head) == 7 {
      assert s[4] == head[4] == ':';
    } else if SchemeLen(head) == 4 {
      assert s[0] == head[0] == 'w';
    }
  }

  lemma SchemeIsUrlChars(s: string)
    ensures AllUrlChars(s[..SchemeLen(s)])
  {
    if "https://" <= s {
      assert s[..8] == "https://";
    } else if "http://" <= s {
      assert s[..7] == "http://";
    } else if "www." <= s {
      assert s[..4] == "www.";
    }
  }

  lemma FindAllNext(s: string, n: nat)
    requires s != "" && n == MatchLen(s)
    ensures FindAll(s) == if n > 0 then [s[..n]] + FindAll(s[n..]) else FindAll(s[1..])
  {
  }

  /** Every match is a URL. */
  lemma {:induction false} MatchesAreUrls(s: string, url: string)
    requires url in FindAll(s)
    ensures IsUrl(url)
    decreases |s|
  {
    var n := MatchLen(s);
    FindAllNext(s, n);
    if n > 0 && url == s[..n] {
      MatchIsUrl(s);
    } else {
      MatchesAreUrls(s[if n > 0 then n else 1..], url);
    }
  }

  lemma MatchIsUrl(s: string)
    requires MatchLen(s) > 0
    ensures IsUrl(s[..MatchLen(s)])
    ensures MatchLen(s) < |s| ==> !IsUrlChar(s[MatchLen(s)])
  {
    var scheme, n := SchemeLen(s), MatchLen(s);
    SchemeIsUrlChars(s);
    RunIs(s[scheme..]);
    assert forall i :: scheme <= i < n ==> s[..n][i] == s[scheme..][..n - scheme][i - scheme];
    assert forall i :: 0 <= i < scheme ==> s[..n][i] == s[..scheme][i];
    assert s[..n][..scheme] == s[..scheme];
  }

  /** A match at the front is the expression's: a URL that no further character could lengthen. */
  lemma MatchMeans(s: string, n: nat)
    requires 0 < n <= |s|
    ensures MatchLen(s) == n <==> IsUrl(s[..n]) && (n < |s| ==> !IsUrlChar(s[n]))
  {
    if MatchLen(s) == n {
      MatchIsUrl(s);
    }
    var url, rest := s[..n], s[n..];
    assert s == url + rest;
    if IsUrl(url) && (n < |s| ==> !IsUrlChar(s[n])) {
      SchemeOfPrefix(url, rest);
      assert s[SchemeLen(url)..] == url[SchemeLen(url)..] + rest;
      RunOf(url[SchemeLen(url)..], rest);
    }
  }

  /** The first match of a line is the URL it holds, when no scheme begins before it. */
  lemma {:induction false} FirstMatchIs(before: string, url: string, rest: string)
    requires IsUrl(url) && (rest != "" ==> !IsUrlChar(rest[0]))
    requires forall k :: 0 <= k < |before| ==> SchemeLen((before + url + rest)[k..]) == 0
    ensures FindAll(before + url + rest) != [] && FindAll(before + url + rest)[0] == url
    decreases |before|
  {
    var s := before + url + rest;
    if before == "" {
      assert s == url + rest;
      assert s[..|url|] == url;
      MatchMeans(s, |url|);
    } else {
      assert s[0..] == s;
      assert s[1..] == before[1..] + url + rest;
      forall k | 0 <= k < |before| - 1
        ensures SchemeLen((before[1..] + url + rest)[k..]) == 0
      {
        assert s[1..][k..] == s[k + 1..];
      }
      FirstMatchIs(before[1..], url, rest);
    }
  }

  // ---------------------------------------------------------------- trimming

  predicate IsTrailing(c: char) {
    || c == '.' || c == ',' || c == ';' || c == ':' || c == '!' || c == '?'
    || c == ')' || c == ']' || c == '}' || c == '>' || c == '*'
  }

  function Count(s: string, c: char): nat {
    if s == "" then 0 else Count(s[..|s| - 1], c) + if s[|s| - 1] == c then 1 else 0
  }

  function Closers(n: nat): (r: string)
    ensures |r| == n && forall i :: 0 <= i < n ==> r[i] == ')'
  {
    seq(n, i => ')')
  }

  /** How many closing parentheses are missing. */
  function Unclosed(s: string): nat {
    if Count(s, '(') > Count(s, ')') then Count(s, '(') - Count(s, ')') else 0
  }

  /** The text without its trailing punctuation, and with the parentheses it then misses. */
  function TrimUrl(url: string): string {
    if url != "" && IsTrailing(url[|url| - 1]) then TrimUrl(url[..|url| - 1]) else url + Closers(Unclosed(url))
  }

  lemma {:induction false} TrimUrlIs(url: string, j: nat)
    requires j <= |url|
    ensures var t := url[..EndUncut(url, j, IsTrailing)]; TrimUrl(url[..j]) == t + Closers(Unclosed(t))
  {
    if j > 0 && IsTrailing(url[j - 1]) {
      TrimUrlIs(url, j - 1);
      assert url[..j][..j - 1] == url[..j - 1];
    }
  }

  /** That is, one TrimRight and the parentheses. */
  lemma TrimUrlTrims(url: string)
    ensures var t := TrimRight(url, IsTrailing); TrimUrl(url) == t + Closers(Unclosed(t))
  {
    TrimUrlIs(url, |url|);
    assert url[..|url|] == url;
  }

  lemma CountSnoc(s: string, c: char, d: char)
    ensures Count(s + [d], c) == Count(s, c) + if d == c then 1 else 0
  {
    assert (s + [d])[..|s|] == s;
  }

  lemma {:induction false} CountClosers(s: string, n: nat)
    ensures Count(s + Closers(n), '(') == Count(s, '(')
    ensures Count(s + Closers(n), ')') == Count(s, ')') + n
  {
    if n == 0 {
      assert s + Closers(0) == s;
    } else {
      CountClosers(s, n - 1);
      assert s + Closers(n) == s + Closers(n - 1) + [')'];
      CountSnoc(s + Closers(n - 1), '(', ')');
      CountSnoc(s + Closers(n - 1), ')', ')');
    }
  }

  /** No opening parenthesis of a trimmed URL is left without its closing one. */
  lemma TrimmedIsBalanced(url: string)
    ensures Unclosed(TrimUrl(url)) == 0
  {
    var t := TrimRight(url, IsTrailing);
    TrimUrlTrims(url);
    CountClosers(t, Unclosed(t));
  }

  /** A URL stays as it is exactly when it is text that trims no further and just the parentheses it misses. */
  lemma TrimFixes(t: string, n: nat)
    requires t != "" ==> !IsTrailing(t[|t| - 1])
    ensures TrimUrl(t + Closers(n)) == t + Closers(n) <==> n == Unclosed(t)
  {
    TrimRightIs(t, Closers(n), IsTrailing);
    TrimUrlTrims(t + Closers(n));
    assert n != Unclosed(t) ==> |t + Closers(n)| != |t + Closers(Unclosed(t))|;
  }

  lemma TrimIsIdempotent(url: string)
    ensures TrimUrl(TrimUrl(url)) == TrimUrl(url)
  {
    var t := TrimRight(url, IsTrailing);
    TrimUrlTrims(url);
    TrimFixes(t, Unclosed(t));
  }

  /** What begins like a match never trims to nothing. */
  lemma UrlKeepsText(url: string, begin: string)
    requires IsUrl(begin) && begin <= url
    ensures TrimUrl(url) != ""
  {
    assert begin[0] == 'h' || begin[0] == 'w' by {
      assert "https://" <= begin || "http://" <= begin || "www." <= begin;
    }
    CutAfter(url, |url|, IsTrailing);
    TrimUrlTrims(url);
  }

  method CountOf(s: string, c: char) returns (n: nat)
    ensures n == Count(s, c)
  {
    n := 0;
    assert s[..|s|] == s;
    for i := 0 to |s|
      invariant n == Count(s[..i], c)
    {
      assert s[..i + 1][..i] == s[..i];
      if s[i] == c {
        n := n + 1;
      }
    }
  }

  /** trimURL. */
  method TrimURL(url: string) returns (trimmed: string)
    ensures trimmed == TrimUrl(url)
  {
    ghost var t := TrimRight(url, IsTrailing);
    TrimUrlTrims(url);
    trimmed := TrimRight(url, IsTrailing);
    ghost var k := 0;
    assert t + Closers(0) == t;
    while true
      invariant k <= Unclosed(t) && trimmed == t + Closers(k)
      decreases Unclosed(t) - k
    {
      CountClosers(t, k);
      var opening := CountOf(trimmed, '(');
      var closing := CountOf(trimmed, ')');
      if opening <= closing {
        break;
      }
      assert t + Closers(k) + [')'] == t + Closers(k + 1);
      trimmed := trimmed + ")";
      k := k + 1;
    }
  }

  /** The trimmed text of a match, unless it is empty. */
  function Trimmed(url: string): seq<string> {
    if TrimUrl(url) != "" then [TrimUrl(url)] else []
  }

  method TrimAll(matches: seq<string>) returns (urls: seq<string>)
    ensures urls == FlatMap(Trimmed, matches)
  {
    urls := [];
    assert matches[..|matches|] == matches;
    for i := 0 to |matches|
      invariant urls == FlatMap(Trimmed, matches[..i])
    {
      assert matches[..i + 1] == matches[..i] + [matches[i]];
      FlatMapSnoc(Trimmed, matches[..i], matches[i]);
      var u := TrimURL(matches[i]);
      if u != "" {
        urls := urls + [u];
      }
    }
  }

  /** extractURLs. */
  method ExtractURLs(text: string) returns (urls: seq<string>)
    ensures urls == FlatMap(Trimmed, FindAll(text))
  {
    urls := TrimAll(FindAll(text));
  }

  // ---------------------------------------------------------------- wrapping

  const WRAP_WIDTH := 78

  /** Go's len counts the bytes of UTF-8. */
  function ByteLen(s: string): (n: nat)
    ensures n >= |s|
  {
    if s == "" then 0
    else
      var c := s[0] as int;
      (if c < 0x80 then 1 else if c < 0x800 then 2 else if c < 0x10000 then 3 else 4) + ByteLen(s[1..])
  }

  predicate IsBlankChar(c: char) {
    c == ' '
  }

  /** Space, tab and the bar that some agents draw down the left side. */
  predicate IsMargin(c: char) {
    c == ' ' || c == '\t' || c as int == 0x2502
  }

  /** The text of the line ends with `segment` at the right edge of the screen. */
  predicate FillsLine(line: string, segment: string) {
    var current := TrimRight(line, IsBlankChar);
    HasSuffix(current, segment) && ByteLen(current) >= WRAP_WIDTH
  }

  /** What a line goes on with: its leading URL characters behind the margin. */
  function Continuation(line: string): string {
    var next := TrimLeft(line, IsMargin);
    next[..RunLen(next)]
  }

  /** What the lines after line `j` add to a URL whose part on line `j` is `segment`. */
  function Joined(lines: seq<string>, j: nat, segment: string): string
    requires j < |lines|
    decreases |lines| - j
  {
    if !FillsLine(lines[j], segment) || j + 1 >= |lines| then ""
    else
      var cont := Continuation(lines[j + 1]);
      if cont == "" then "" else cont + Joined(lines, j + 1, cont)
  }

  /** A match on line `j` with all that the lines below add to it. */
  function Whole(lines: seq<string>, j: nat): string -> seq<string>
    requires j < |lines|
  {
    (found: string) => [found + Joined(lines, j, found)]
  }

  function LineTexts(lines: seq<string>): nat -> seq<string> {
    (j: nat) => if j < |lines| then FlatMap(Whole(lines, j), FindAll(lines[j])) else []
  }

  function Indices(n: nat): (r: seq<nat>)
    ensures |r| == n && forall i :: 0 <= i < n ==> r[i] == i
  {
    seq(n, i => i)
  }

  /** The whole texts of all matches, and the URLs they trim to. */
  function ScreenTexts(lines: seq<string>): seq<string> {
    FlatMap(LineTexts(lines), Indices(|lines|))
  }

  function ScreenUrls(lines: seq<string>): seq<string> {
    FlatMap(Trimmed, ScreenTexts(lines))
  }

  /** The loop that follows one URL down the lines. */
  method Follow(lines: seq<string>, i: nat, match_: string) returns (url: string)
    requires i < |lines|
    ensures url == match_ + Joined(lines, i, match_)
  {
    url := match_;
    var segment := match_;
    var j := i;
    var current := TrimRight(lines[i], IsBlankChar);
    while HasSuffix(current, segment) && ByteLen(current) >= WRAP_WIDTH && j + 1 < |lines|
      invariant i <= j < |lines|
      invariant current == TrimRight(lines[j], IsBlankChar)
      invariant url + Joined(lines, j, segment) == match_ + Joined(lines, i, match_)
      decreases |lines| - j
    {
      var next := TrimLeft(lines[j + 1], IsMargin);
      var cont := next[..RunLen(next)];
      if cont == "" {
        break;
      }
      assert url + cont + Joined(lines, j + 1, cont) == url + (cont + Joined(lines, j + 1, cont));
      url := url + cont;
      segment := cont;
      j := j + 1;
      current := TrimRight(lines[j], IsBlankChar);
    }
  }

  method ExtractFromLine(lines: seq<string>, j: nat) returns (urls: seq<string>)
    requires j < |lines|
    ensures urls == FlatMap(Trimmed, LineTexts(lines)(j))
  {
    urls := ExtractMatches(lines, j, FindAll(lines[j]));
  }

  method ExtractMatches(lines: seq<string>, j: nat, matches: seq<string>)
    returns (urls: seq<string>)
    requires j < |lines|
    ensures urls == FlatMap(Trimmed, FlatMap(Whole(lines, j), matches))
  {
    urls := [];
    ghost var texts := [];
    assert matches[..|matches|] == matches;
    for m := 0 to |matches|
      invariant texts == FlatMap(Whole(lines, j), matches[..m])
      invariant urls == FlatMap(Trimmed, texts)
    {
      assert matches[..m + 1] == matches[..m] + [matches[m]];
      FlatMapSnoc(Whole(lines, j), matches[..m], matches[m]);
      var url := Follow(lines, j, matches[m]);
      FlatMapSnoc(Trimmed, texts, url);
      texts := texts + [url];
      var u := TrimURL(url);
      if u != "" {
        urls := urls + [u];
      }
    }
  }

  lemma OneMoreLine(lineTexts: nat -> seq<string>, i: nat)
    ensures FlatMap(lineTexts, Indices(i + 1)) == FlatMap(lineTexts, Indices(i)) + lineTexts(i)
  {
    FlatMapSnoc(lineTexts, Indices(i), i);
    assert Indices(i + 1) == Indices(i) + [i];
  }

  /** extractURLsFromScreen. */
  method ExtractURLsFromScreen(text: string) returns (urls: seq<string>)
    ensures urls == ScreenUrls(Lines(text))
  {
    var lines := Lines(text);
    urls := [];
    ghost var texts := [];
    for i := 0 to |lines|
      invariant texts == FlatMap(LineTexts(lines), Indices(i))
      invariant urls == FlatMap(Trimmed, texts)
    {
      var found := ExtractFromLine(lines, i);
      ghost var more := LineTexts(lines)(i);
      OneMoreLine(LineTexts(lines), i);
      FlatMapConcat(Trimmed, texts, more);
      urls, texts := urls + found, texts + more;
    }
  }

  // ------------------------------------------------------ a wrapped URL comes back

  function Concat(pieces: seq<string>): string {
    if pieces == [] then "" else pieces[0] + Concat(pieces[1..])
  }

  /**
   The pieces of a URL on the lines from `j` on: each but the last fills its
   line, and each but the first is what its line goes on with.
   */
  ghost predicate Pieces(lines: seq<string>, j: nat, pieces: seq<string>): (r: bool)
    ensures r ==> pieces != [] && j + |pieces| <= |lines|
    decreases |pieces|
  {
    && pieces != [] && j < |lines|
    && (|pieces| > 1 ==>
          && FillsLine(lines[j], pieces[0])
          && j + 1 < |lines| && pieces[1] != "" && Continuation(lines[j + 1]) == pieces[1]
          && Pieces(lines, j + 1, pieces[1..]))
  }

  ghost predicate EndsAt(lines: seq<string>, j: nat, piece: string)
    requires j < |lines|
  {
    !FillsLine(lines[j], piece) || j + 1 == |lines| || Continuation(lines[j + 1]) == ""
  }

  /** The same, and the last piece is followed by nothing. */
  ghost predicate AllPieces(lines: seq<string>, j: nat, pieces: seq<string>) {
    Pieces(lines, j, pieces) && EndsAt(lines, j + |pieces| - 1, pieces[|pieces| - 1])
  }

  /** Whatever margins and trailing blanks the lines have, the pieces are joined in order, with what follows the last. */
  lemma {:induction false} PiecesAreJoined(lines: seq<string>, j: nat, pieces: seq<string>)
    requires Pieces(lines, j, pieces)
    ensures var last := |pieces| - 1;
      pieces[0] + Joined(lines, j, pieces[0]) == Concat(pieces) + Joined(lines, j + last, pieces[last])
    decreases |pieces|
  {
    if |pieces| == 1 {
      assert Concat(pieces) == pieces[0] + Concat([]);
    } else {
      var rest := pieces[1..];
      PiecesAreJoined(lines, j + 1, rest);
      assert rest[|rest| - 1] == pieces[|pieces| - 1];
      AppendAssoc(pieces[0], Concat(rest), Joined(lines, j + |pieces| - 1, pieces[|pieces| - 1]));
    }
  }

  /** So a match comes out as exactly these pieces if and only if nothing follows the last one. */
  lemma JoinedExactly(lines: seq<string>, j: nat, pieces: seq<string>)
    requires Pieces(lines, j, pieces)
    ensures pieces[0] + Joined(lines, j, pieces[0]) == Concat(pieces) <==> AllPieces(lines, j, pieces)
  {
    var last := |pieces| - 1;
    PiecesAreJoined(lines, j, pieces);
    JoiningEnds(lines, j + last, pieces[last]);
    SameWithout(Concat(pieces), Joined(lines, j + last, pieces[last]));
  }

  lemma JoiningEnds(lines: seq<string>, j: nat, piece: string)
    requires j < |lines|
    ensures Joined(lines, j, piece) == "" <==> EndsAt(lines, j, piece)
  {
  }

  lemma SameWithout(text: string, more: string)
    ensures text + more == text <==> more == ""
  {
    assert |text + more| == |text| + |more|;
    assert more == "" ==> text + more == text;
  }

  // ------------------------------------------------ what a screen's first URL is

  lemma PiecesMakeText(lines: seq<string>, j: nat, pieces: seq<string>)
    requires AllPieces(lines, j, pieces)
    ensures Whole(lines, j)(pieces[0]) == [Concat(pieces)]
  {
    JoinedExactly(lines, j, pieces);
  }

  lemma LineTextsAre(lines: seq<string>, j: nat, matches: seq<string>)
    requires j < |lines| && matches == FindAll(lines[j])
    ensures LineTexts(lines)(j) == FlatMap(Whole(lines, j), matches)
  {
  }

  lemma TextOfLine(whole: string -> seq<string>, matches: seq<string>, found: string, text: string)
    requires found in matches && whole(found) == [text]
    ensures text in FlatMap(whole, matches)
    ensures matches[0] == found ==> FlatMap(whole, matches)[0] == text
  {
    var m :| 0 <= m < |matches| && matches[m] == found;
    FlatMapHas(whole, matches, m, text);
    if matches[0] == found {
      FlatMapFirst(whole, matches, 0);
    }
  }

  ghost predicate NothingBefore(lineTexts: nat -> seq<string>, j: nat) {
    forall k: nat :: k < j ==> lineTexts(k) == []
  }

  lemma TextOfScreen(lineTexts: nat -> seq<string>, n: nat, j: nat, text: string)
    requires j < n && text in lineTexts(j)
    ensures text in FlatMap(lineTexts, Indices(n))
    ensures NothingBefore(lineTexts, j) && lineTexts(j)[0] == text ==> FlatMap(lineTexts, Indices(n))[0] == text
  {
    FlatMapHas(lineTexts, Indices(n), j, text);
    if NothingBefore(lineTexts, j) {
      FlatMapFirst(lineTexts, Indices(n), j);
    }
  }

  lemma TextIsFound(lines: seq<string>, j: nat, matches: seq<string>, found: string, text: string)
    requires j < |lines| && matches == FindAll(lines[j]) && found in matches
    requires Whole(lines, j)(found) == [text]
    ensures text in ScreenTexts(lines)
    ensures NothingBefore(LineTexts(lines), j) && matches[0] == found ==> ScreenTexts(lines)[0] == text
  {
    LineTextsAre(lines, j, matches);
    TextOfLine(Whole(lines, j), matches, found, text);
    TextOfScreen(LineTexts(lines), |lines|, j, text);
  }

  /** None of the first `j` lines holds a URL. */
  ghost predicate NoUrlIn(lines: seq<string>, j: nat)
    requires j <= |lines|
  {
    forall k {:trigger FindAll(lines[k])} :: 0 <= k < j ==> FindAll(lines[k]) == []
  }

  lemma NoTextAbove(lines: seq<string>, j: nat)
    requires j <= |lines| && NoUrlIn(lines, j)
    ensures NothingBefore(LineTexts(lines), j)
  {
    forall k: nat | k < j
      ensures LineTexts(lines)(k) == []
    {
      LineTextsAre(lines, k, FindAll(lines[k]));
    }
  }

  lemma TrimmedText(texts: seq<string>, text: string)
    requires text in texts && TrimUrl(text) != ""
    ensures TrimUrl(text) in FlatMap(Trimmed, texts)
    ensures texts[0] == text ==> FlatMap(Trimmed, texts)[0] == TrimUrl(text)
  {
    var m :| 0 <= m < |texts| && texts[m] == text;
    FlatMapHas(Trimmed, texts, m, TrimUrl(text));
    if texts[0] == text {
      FlatMapFirst(Trimmed, texts, 0);
    }
  }

  lemma PiecesAreText(lines: seq<string>, j: nat, pieces: seq<string>)
    requires AllPieces(lines, j, pieces) && pieces[0] in FindAll(lines[j])
    ensures Concat(pieces) in ScreenTexts(lines)
    ensures NoUrlIn(lines, j) && FindAll(lines[j])[0] == pieces[0] ==> ScreenTexts(lines)[0] == Concat(pieces)
  {
    PiecesMakeText(lines, j, pieces);
    TextIsFound(lines, j, FindAll(lines[j]), pieces[0], Concat(pieces));
    if NoUrlIn(lines, j) {
      NoTextAbove(lines, j);
    }
  }

  /** On any line, behind any match before it: a URL whose pieces lie one below the other is extracted whole. */
  lemma JoinedUrlIsExtracted(lines: seq<string>, j: nat, pieces: seq<string>)
    requires AllPieces(lines, j, pieces) && pieces[0] in FindAll(lines[j]) && TrimUrl(Concat(pieces)) != ""
    ensures TrimUrl(Concat(pieces)) in ScreenUrls(lines)
  {
    PiecesAreText(lines, j, pieces);
    TrimmedText(ScreenTexts(lines), Concat(pieces));
  }

  /** When no line above holds a URL and none comes before it on its line, it is the first one extracted. */
  lemma FirstUrlIsJoined(lines: seq<string>, j: nat, pieces: seq<string>)
    requires AllPieces(lines, j, pieces) && TrimUrl(Concat(pieces)) != ""
    requires NoUrlIn(lines, j)
    requires FindAll(lines[j]) != [] && FindAll(lines[j])[0] == pieces[0]
    ensures ScreenUrls(lines) != [] && ScreenUrls(lines)[0] == TrimUrl(Concat(pieces))
  {
    PiecesAreText(lines, j, pieces);
    TrimmedText(ScreenTexts(lines), Concat(pieces));
  }

  // --------------------------------------------------------- rows of a terminal

  /** A line that shows a piece of a URL, behind a margin and before blanks. */
  datatype Row = Row(margin: string, piece: string, blanks: string)

  function RowText(row: Row): string {
    row.margin + (row.piece + row.blanks)
  }

  function TextsOf(rows: seq<Row>): (texts: seq<string>)
    ensures |texts| == |rows|
  {
    if rows == [] then [] else [RowText(rows[0])] + TextsOf(rows[1..])
  }

  function PiecesOf(rows: seq<Row>): (pieces: seq<string>)
    ensures |pieces| == |rows|
  {
    if rows == [] then [] else [rows[0].piece] + PiecesOf(rows[1..])
  }

  ghost predicate ShowsPiece(row: Row) {
    && row.piece != "" && AllUrlChars(row.piece)
    && forall i :: 0 <= i < |row.blanks| ==> IsBlankChar(row.blanks[i])
  }

  /** A row that goes on with a URL has nothing but margin characters before its piece. */
  ghost predicate GoesOn(row: Row) {
    ShowsPiece(row) && forall i :: 0 <= i < |row.margin| ==> IsMargin(row.margin[i])
  }

  predicate IsFull(row: Row) {
    ByteLen(row.margin + row.piece) >= WRAP_WIDTH
  }

  /** The rows of one URL: all full but the last, all behind a margin but the first. */
  ghost predicate AreRows(rows: seq<Row>) {
    && rows != [] && ShowsPiece(rows[0])
    && (|rows| > 1 ==> IsFull(rows[0]) && GoesOn(rows[1]) && AreRows(rows[1..]))
  }

  /** The URL of some rows. */
  function UrlOf(rows: seq<Row>): string {
    Concat(PiecesOf(rows))
  }

  /** The last row is not full, or the line below it does not go on with a URL character. */
  predicate NothingFollows(rows: seq<Row>, more: seq<string>)
    requires rows != []
  {
    !IsFull(rows[|rows| - 1]) || more == [] || Continuation(more[0]) == ""
  }

  /** No scheme begins in what stands before the piece. */
  ghost predicate NoSchemeBefore(row: Row) {
    forall k :: 0 <= k < |row.margin| ==> SchemeLen(RowText(row)[k..]) == 0
  }

  lemma RowFills(row: Row)
    requires ShowsPiece(row)
    ensures FillsLine(RowText(row), row.piece) <==> IsFull(row)
  {
    var current := row.margin + row.piece;
    assert RowText(row) == current + row.blanks;
    assert current[|current| - 1] == row.piece[|row.piece| - 1];
    TrimRightIs(current, row.blanks, IsBlankChar);
    assert current[|current| - |row.piece|..] == row.piece;
  }

  lemma RowContinues(row: Row)
    requires GoesOn(row)
    ensures Continuation(RowText(row)) == row.piece
  {
    var next := row.piece + row.blanks;
    assert next[0] == row.piece[0];
    TrimLeftIs(row.margin, next, IsMargin);
    RunOf(row.piece, row.blanks);
    assert next[..|row.piece|] == row.piece;
  }

  lemma LinesFrom(lines: seq<string>, j: nat, head: string, rest: seq<string>)
    requires j <= |lines| && lines[j..] == [head] + rest
    ensures j < |lines| && lines[j] == head && lines[j + 1..] == rest
  {
    assert lines[j..][1..] == lines[j + 1..];
    assert lines[j..][0] == lines[j];
  }

  lemma RowsFrom(lines: seq<string>, j: nat, rows: seq<Row>, more: seq<string>)
    requires rows != [] && j <= |lines| && lines[j..] == TextsOf(rows) + more
    ensures j < |lines| && lines[j] == RowText(rows[0]) && lines[j + 1..] == TextsOf(rows[1..]) + more
  {
    var rest := TextsOf(rows[1..]);
    assert TextsOf(rows) + more == [RowText(rows[0])] + (rest + more);
    LinesFrom(lines, j, RowText(rows[0]), rest + more);
  }

  lemma LastRowEnds(lines: seq<string>, j: nat, piece: string, more: seq<string>)
    requires j < |lines| && lines[j + 1..] == more
    ensures EndsAt(lines, j, piece) <==> !FillsLine(lines[j], piece) || more == [] || Continuation(more[0]) == ""
  {
    assert more != [] ==> lines[j + 1..][0] == lines[j + 1];
  }

  lemma {:induction false} RowsArePieces(lines: seq<string>, j: nat, rows: seq<Row>, more: seq<string>)
    requires AreRows(rows) && j <= |lines| && lines[j..] == TextsOf(rows) + more
    ensures Pieces(lines, j, PiecesOf(rows))
    ensures AllPieces(lines, j, PiecesOf(rows)) <==> NothingFollows(rows, more)
    decreases |rows|
  {
    var rest := rows[1..];
    RowsFrom(lines, j, rows, more);
    RowFills(rows[0]);
    if rest == [] {
      assert TextsOf(rest) + more == more;
      LastRowEnds(lines, j, rows[0].piece, more);
    } else {
      RowsFrom(lines, j + 1, rest, more);
      RowContinues(rest[0]);
      RowsArePieces(lines, j + 1, rest, more);
      MorePieces(lines, j, PiecesOf(rows), PiecesOf(rest));
    }
  }

  lemma MorePieces(lines: seq<string>, j: nat, pieces: seq<string>, rest: seq<string>)
    requires pieces != [] && pieces[1..] == rest && Pieces(lines, j + 1, rest)
    requires FillsLine(lines[j], pieces[0]) && rest[0] != "" && Continuation(lines[j + 1]) == rest[0]
    ensures Pieces(lines, j, pieces) && (AllPieces(lines, j, pieces) <==> AllPieces(lines, j + 1, rest))
  {
    assert pieces[|pieces| - 1] == rest[|rest| - 1];
  }

  lemma FirstRowIsFound(row: Row)
    requires ShowsPiece(row) && IsUrl(row.piece) && NoSchemeBefore(row)
    ensures FindAll(RowText(row)) != [] && FindAll(RowText(row))[0] == row.piece
  {
    assert RowText(row) == row.margin + row.piece + row.blanks;
    FirstMatchIs(row.margin, row.piece, row.blanks);
  }

  lemma NoUrlInMore(above: seq<string>, rest: seq<string>)
    requires NoUrlIn(above, |above|)
    ensures NoUrlIn(above + rest, |above|)
  {
    forall k | 0 <= k < |above|
      ensures FindAll((above + rest)[k]) == []
    {
      assert (above + rest)[k] == above[k];
      assert FindAll(above[k]) == [];
    }
  }

  lemma AboveAndRows(above: seq<string>, texts: seq<string>, more: seq<string>)
    requires NoUrlIn(above, |above|)
    ensures (above + texts + more)[|above|..] == texts + more && NoUrlIn(above + texts + more, |above|)
  {
    NoUrlInMore(above, texts + more);
    assert above + texts + more == above + (texts + more);
  }

  /**
   The first text found on a screen with a broken URL: any lines without a URL
   above it, any text before it on its first row in which no URL begins, its
   scheme and one more character on that row, and margins and trailing blanks
   on all rows.  It is the URL if and only if nothing follows its last row.
   */
  lemma FirstTextIsUrl(above: seq<string>, rows: seq<Row>, more: seq<string>)
    requires NoUrlIn(above, |above|) && AreRows(rows) && IsUrl(rows[0].piece) && NoSchemeBefore(rows[0])
    ensures var texts := ScreenTexts(above + TextsOf(rows) + more);
      && texts != []
      && rows[0].piece <= texts[0]
      && (texts[0] == UrlOf(rows) <==> NothingFollows(rows, more))
  {
    var lines := above + TextsOf(rows) + more;
    AboveAndRows(above, TextsOf(rows), more);
    FirstText(lines, |above|, rows, more);
  }

  lemma FirstText(lines: seq<string>, j: nat, rows: seq<Row>, more: seq<string>)
    requires AreRows(rows) && IsUrl(rows[0].piece) && NoSchemeBefore(rows[0])
    requires j <= |lines| && lines[j..] == TextsOf(rows) + more && NoUrlIn(lines, j)
    ensures var texts := ScreenTexts(lines);
      && texts != []
      && rows[0].piece <= texts[0]
      && (texts[0] == UrlOf(rows) <==> NothingFollows(rows, more))
  {
    var found := rows[0].piece;
    RowsFrom(lines, j, rows, more);
    FirstRowIsFound(rows[0]);
    RowsArePieces(lines, j, rows, more);
    JoinedExactly(lines, j, PiecesOf(rows));
    NoTextAbove(lines, j);
    TextIsFound(lines, j, FindAll(lines[j]), found, found + Joined(lines, j, found));
  }

  lemma PieceBegins(rows: seq<Row>)
    requires AreRows(rows)
    ensures rows[0].piece <= UrlOf(rows)
  {
  }

  lemma PieceIsUrl(url: string, n: nat)
    requires IsUrl(url) && n <= |url|
    ensures IsUrl(url[..n]) <==> SchemeLen(url) < n
  {
    var head := url[..n];
    if SchemeLen(url) < n {
      assert url[..SchemeLen(url)] == head[..SchemeLen(url)];
    }
    if IsUrl(head) {
      assert url == head + url[n..];
      SchemeOfPrefix(head, url[n..]);
    }
  }

  /** Such a URL comes back whole as the first one extracted. */
  lemma FirstUrlIsRecovered(above: seq<string>, rows: seq<Row>, more: seq<string>)
    requires NoUrlIn(above, |above|) && AreRows(rows) && IsUrl(rows[0].piece) && NoSchemeBefore(rows[0])
    requires NothingFollows(rows, more)
    ensures var urls := ScreenUrls(above + TextsOf(rows) + more); urls != [] && urls[0] == TrimUrl(UrlOf(rows))
  {
    FirstTextIsUrl(above, rows, more);
    PieceBegins(rows);
    UrlKeepsText(UrlOf(rows), rows[0].piece);
    TrimmedText(ScreenTexts(above + TextsOf(rows) + more), UrlOf(rows));
  }

  // ------------------------------------------------------ URLs that are lost

  lemma FirstOrLater(s: string, found: string)
    requires found in FindAll(s)
    ensures var n := MatchLen(s); (n > 0 && found == s[..n]) || found in FindAll(s[if n > 0 then n else 1..])
  {
    FindAllNext(s, MatchLen(s));
  }

  /** Where a match stands. */
  lemma {:induction false} MatchStands(s: string, found: string) returns (k: nat)
    requires found in FindAll(s)
    ensures k < |s| && MatchLen(s[k..]) > 0 && found == s[k..][..MatchLen(s[k..])]
    decreases |s|
  {
    var n := MatchLen(s);
    FirstOrLater(s, found);
    if n > 0 && found == s[..n] {
      k := 0;
      assert s[0..] == s;
    } else {
      var m := if n > 0 then n else 1;
      var later := MatchStands(s[m..], found);
      k := m + later;
      assert s[m..][later..] == s[k..];
    }
  }

  lemma SchemeBegins(s: string)
    ensures SchemeLen(s) > 0 ==> s[0] == 'h' || s[0] == 'w'
  {
    assert SchemeLen(s) > 0 ==> "https://" <= s || "http://" <= s || "www." <= s;
  }

  lemma NoSchemeInMargin(row: Row)
    requires forall k :: 0 <= k < |row.margin| ==> row.margin[k] != 'h' && row.margin[k] != 'w'
    ensures NoSchemeBefore(row)
  {
    forall k | 0 <= k < |row.margin|
      ensures SchemeLen(RowText(row)[k..]) == 0
    {
      assert RowText(row)[k..][0] == row.margin[k];
      SchemeBegins(RowText(row)[k..]);
    }
  }

  /** A scheme on a row begins within the piece. */
  lemma SchemeInPiece(row: Row, k: nat)
    requires ShowsPiece(row) && NoSchemeBefore(row) && k < |RowText(row)| && SchemeLen(RowText(row)[k..]) > 0
    ensures |row.margin| <= k < |row.margin| + |row.piece|
    ensures RowText(row)[k..] == row.piece[k - |row.margin|..] + row.blanks
  {
    SchemeBegins(RowText(row)[k..]);
    assert RowText(row)[k..][0] == RowText(row)[k];
    var blank := |row.margin| + |row.piece|;
    assert forall n :: blank <= n < |RowText(row)| ==> RowText(row)[n] == row.blanks[n - blank];
  }

  /** What is found on a row is the end of its piece. */
  lemma MatchInRow(row: Row, found: string) returns (i: nat)
    requires ShowsPiece(row) && NoSchemeBefore(row) && found in FindAll(RowText(row))
    ensures i < |row.piece| && found == row.piece[i..] && IsUrl(found)
  {
    var k := MatchStands(RowText(row), found);
    SchemeInPiece(row, k);
    i := k - |row.margin|;
    MatchIsUrl(row.piece[i..] + row.blanks);
    MatchEndsPiece(row.piece[i..], row.blanks, found);
  }

  lemma MatchEndsPiece(piece: string, blanks: string, found: string)
    requires AllUrlChars(piece) && forall i :: 0 <= i < |blanks| ==> IsBlankChar(blanks[i])
    requires AllUrlChars(found) && found <= piece + blanks
    requires |found| < |piece + blanks| ==> !IsUrlChar((piece + blanks)[|found|])
    ensures found == piece
  {
    var rest := (piece + blanks)[|found|..];
    assert piece + blanks == found + rest;
    RunOf(piece, blanks);
    RunOf(found, rest);
    assert (piece + blanks)[..|piece|] == piece;
  }

  /** A row that ends within the URL's scheme, or right behind it, shows no URL. */
  lemma NothingFoundInScheme(row: Row, url: string)
    requires ShowsPiece(row) && NoSchemeBefore(row) && IsUrl(url)
    requires row.piece <= url && |row.piece| <= SchemeLen(url)
    ensures FindAll(RowText(row)) == []
  {
    assert row.piece == url[..|row.piece|];
    forall i | 0 <= i < |row.piece|
      ensures !IsUrl(row.piece[i..])
    {
      NoUrlInScheme(url, |row.piece|, i);
    }
    if FindAll(RowText(row)) != [] {
      var i := MatchInRow(row, FindAll(RowText(row))[0]);
    }
  }

  lemma NoUrlInScheme(url: string, n: nat, i: nat)
    requires IsUrl(url) && i < n <= SchemeLen(url)
    ensures !IsUrl(url[..n][i..])
  {
    var end := url[..n][i..];
    if i == 0 {
      assert end == url[..n];
      PieceIsUrl(url, n);
    } else {
      NoSchemeInScheme(url, i);
      SchemeBegins(end);
      assert end[0] == url[i];
    }
  }

  lemma NoSchemeInScheme(url: string, i: nat)
    requires 0 < i < SchemeLen(url)
    ensures url[i] == 'h' || url[i] == 'w' ==> SchemeLen(url) == 4
  {
    if "https://" <= url {
      assert url[i] == "https://"[i];
    } else if "http://" <= url {
      assert url[i] == "http://"[i];
    }
  }

  lemma SplitRow(row: Row, i: nat)
    requires ShowsPiece(row) && i < |row.piece|
    ensures var split := Row(row.margin + row.piece[..i], row.piece[i..], row.blanks);
      RowText(split) == RowText(row) && ShowsPiece(split) && (IsFull(split) <==> IsFull(row))
  {
    assert row.margin + row.piece[..i] + row.piece[i..] == row.margin + row.piece;
    assert row.margin + row.piece[..i] + (row.piece[i..] + row.blanks) == row.margin + (row.piece + row.blanks);
  }

  lemma UrlBeginsWith(rows: seq<Row>)
    requires rows != []
    ensures UrlOf(rows) == rows[0].piece + UrlOf(rows[1..])
  {
    assert PiecesOf(rows)[1..] == PiecesOf(rows[1..]);
  }

  lemma OtherFirstRow(rows: seq<Row>, more: seq<string>, row: Row, split: seq<Row>)
    requires AreRows(rows) && NothingFollows(rows, more) && split == [row] + rows[1..]
    requires ShowsPiece(row) && RowText(row) == RowText(rows[0]) && (IsFull(row) <==> IsFull(rows[0]))
    ensures AreRows(split) && NothingFollows(split, more) && TextsOf(split) == TextsOf(rows)
  {
    assert split[1..] == rows[1..];
  }

  /** The same rows, with the URL seen to begin at its character `i`. */
  lemma FromCharacter(rows: seq<Row>, more: seq<string>, i: nat) returns (split: seq<Row>)
    requires AreRows(rows) && NothingFollows(rows, more) && i < |rows[0].piece|
    ensures AreRows(split) && NothingFollows(split, more) && split[0].piece == rows[0].piece[i..]
    ensures TextsOf(split) == TextsOf(rows) && i <= |UrlOf(rows)| && UrlOf(split) == UrlOf(rows)[i..]
  {
    var row := Row(rows[0].margin + rows[0].piece[..i], rows[0].piece[i..], rows[0].blanks);
    split := [row] + rows[1..];
    SplitRow(rows[0], i);
    OtherFirstRow(rows, more, row, split);
    FromLater(rows, split, i);
  }

  lemma FromLater(rows: seq<Row>, split: seq<Row>, i: nat)
    requires rows != [] && split != [] && split[1..] == rows[1..]
    requires i <= |rows[0].piece| && split[0].piece == rows[0].piece[i..]
    ensures i <= |UrlOf(rows)| && UrlOf(split) == UrlOf(rows)[i..]
  {
    UrlBeginsWith(rows);
    UrlBeginsWith(split);
  }

  /** What a match on a row is joined to is the rest of the URL. */
  lemma RestIsJoined(lines: seq<string>, j: nat, rows: seq<Row>, more: seq<string>, i: nat)
    requires AreRows(rows) && NothingFollows(rows, more) && i < |rows[0].piece|
    requires j < |lines| && lines[j..] == TextsOf(rows) + more
    ensures i <= |UrlOf(rows)|
    ensures var found := rows[0].piece[i..]; found + Joined(lines, j, found) == UrlOf(rows)[i..]
  {
    var split := FromCharacter(rows, more, i);
    RowsArePieces(lines, j, split, more);
    JoinedExactly(lines, j, PiecesOf(split));
  }

  lemma TextInRow(lines: seq<string>, j: nat, rows: seq<Row>, more: seq<string>, text: string) returns (i: nat)
    requires AreRows(rows) && NothingFollows(rows, more) && NoSchemeBefore(rows[0])
    requires j < |lines| && lines[j..] == TextsOf(rows) + more && text in LineTexts(lines)(j)
    ensures i < |rows[0].piece| && i < |UrlOf(rows)| && text == UrlOf(rows)[i..]
  {
    RowsFrom(lines, j, rows, more);
    var found := FoundText(lines, j, text);
    i := MatchInRow(rows[0], found);
    PieceBegins(rows);
    RestIsJoined(lines, j, rows, more, i);
  }

  lemma FoundText(lines: seq<string>, j: nat, text: string) returns (found: string)
    requires j < |lines| && text in LineTexts(lines)(j)
    ensures found in FindAll(lines[j]) && text == found + Joined(lines, j, found)
  {
    var m := FlatMapFrom(Whole(lines, j), FindAll(lines[j]), text);
    found := FindAll(lines[j])[m];
  }

  lemma RestAreRows(rows: seq<Row>, more: seq<string>)
    requires AreRows(rows) && NothingFollows(rows, more) && |rows| > 1
    ensures AreRows(rows[1..]) && NothingFollows(rows[1..], more) && NoSchemeBefore(rows[1..][0])
  {
    NoSchemeInMargin(rows[1]);
  }

  lemma EndOfMore(rows: seq<Row>, n: nat)
    requires rows != [] && n <= |UrlOf(rows[1..])|
    ensures |UrlOf(rows)| == |rows[0].piece| + |UrlOf(rows[1..])|
    ensures UrlOf(rows[1..])[n..] == UrlOf(rows)[|rows[0].piece| + n..]
  {
    UrlBeginsWith(rows);
  }

  /** Every text found on the rows of a URL is an end of it, and a proper one below the first row. */
  lemma {:induction false} TextInRows(lines: seq<string>, j: nat, rows: seq<Row>, more: seq<string>, k: nat, text: string)
    returns (i: nat)
    requires AreRows(rows) && NothingFollows(rows, more) && NoSchemeBefore(rows[0])
    requires j <= |lines| && lines[j..] == TextsOf(rows) + more
    requires j <= k < j + |rows| && k < |lines| && text in LineTexts(lines)(k)
    ensures i < |UrlOf(rows)| && text == UrlOf(rows)[i..] && (k > j ==> i > 0)
    decreases k - j
  {
    if k == j {
      i := TextInRow(lines, j, rows, more, text);
    } else {
      var rest := rows[1..];
      RowsFrom(lines, j, rows, more);
      RestAreRows(rows, more);
      var n := TextInRows(lines, j + 1, rest, more, k, text);
      i := |rows[0].piece| + n;
      EndOfMore(rows, n);
    }
  }

  lemma EndUncutOfEnd(url: string, i: nat)
    requires i <= |url|
    ensures var n, m := EndUncut(url, |url|, IsTrailing), EndUncut(url[i..], |url| - i, IsTrailing);
      m == if n > i then n - i else 0
  {
    var end, n := url[i..], EndUncut(url, |url|, IsTrailing);
    CutAfter(url, |url|, IsTrailing);
    assert forall k :: 0 <= k < |end| ==> end[k] == url[i + k];
    EndUncutIs(end, |end|, if n > i then n - i else 0, IsTrailing);
  }

  lemma ClosersDoNotMakeUp(longer: string, c: nat, shorter: string, d: nat)
    requires |shorter| < |longer| && longer[|longer| - 1] != ')'
    ensures longer + Closers(c) != shorter + Closers(d)
  {
    var n := |longer| - 1;
    assert (longer + Closers(c))[n] == longer[n];
    assert n < |shorter| + d ==> (shorter + Closers(d))[n] == Closers(d)[n - |shorter|];
  }

  lemma EndIsShorter(url: string, i: nat)
    requires 0 < i <= |url| && TrimRight(url, IsTrailing) != ""
    ensures |TrimRight(url[i..], IsTrailing)| < |TrimRight(url, IsTrailing)|
    ensures TrimRight(url, IsTrailing)[|TrimRight(url, IsTrailing)| - 1] != ')'
  {
    EndUncutOfEnd(url, i);
  }

  /** A proper end of a URL never trims to what the URL trims to. */
  lemma EndTrimsDifferently(url: string, i: nat)
    requires 0 < i <= |url| && TrimUrl(url) != ""
    ensures TrimUrl(url[i..]) != TrimUrl(url)
  {
    var text, end := TrimRight(url, IsTrailing), TrimRight(url[i..], IsTrailing);
    TrimUrlTrims(url);
    TrimUrlTrims(url[i..]);
    TextIsLeft(url);
    EndIsShorter(url, i);
    ClosersDoNotMakeUp(text, Unclosed(text), end, Unclosed(end));
  }

  lemma TextIsLeft(url: string)
    requires TrimUrl(url) != ""
    ensures TrimRight(url, IsTrailing) != ""
  {
    TrimUrlTrims(url);
    assert Unclosed("") == 0;
    assert "" + Closers(0) == "";
  }

  /** Broken within its scheme, or right behind it, a URL is not among those extracted. */
  lemma LostBehindScheme(above: seq<string>, rows: seq<Row>, more: seq<string>)
    requires NoUrlIn(above, |above|) && NoUrlIn(more, |more|) && AreRows(rows) && NothingFollows(rows, more)
    requires IsUrl(UrlOf(rows)) && NoSchemeBefore(rows[0]) && |rows[0].piece| <= SchemeLen(UrlOf(rows))
    ensures TrimUrl(UrlOf(rows)) !in ScreenUrls(above + TextsOf(rows) + more)
  {
    var lines, url := above + TextsOf(rows) + more, UrlOf(rows);
    if TrimUrl(url) in ScreenUrls(lines) {
      var m := FlatMapFrom(Trimmed, ScreenTexts(lines), TrimUrl(url));
      var text := ScreenTexts(lines)[m];
      var i := TextIsEnd(above, rows, more, text);
      UrlKeepsText(url, url);
      EndTrimsDifferently(url, i);
    }
  }

  lemma TextIsEnd(above: seq<string>, rows: seq<Row>, more: seq<string>, text: string) returns (i: nat)
    requires NoUrlIn(above, |above|) && NoUrlIn(more, |more|) && AreRows(rows) && NothingFollows(rows, more)
    requires IsUrl(UrlOf(rows)) && NoSchemeBefore(rows[0]) && |rows[0].piece| <= SchemeLen(UrlOf(rows))
    requires text in ScreenTexts(above + TextsOf(rows) + more)
    ensures 0 < i < |UrlOf(rows)| && text == UrlOf(rows)[i..]
  {
    var lines := above + TextsOf(rows) + more;
    PieceBegins(rows);
    NothingFoundInScheme(rows[0], UrlOf(rows));
    var k := TextLine(above, TextsOf(rows), more, text);
    AboveAndRows(above, TextsOf(rows), more);
    i := TextInRows(lines, |above|, rows, more, k, text);
  }

  lemma TextLine(above: seq<string>, texts: seq<string>, more: seq<string>, text: string) returns (k: nat)
    requires NoUrlIn(above, |above|) && NoUrlIn(more, |more|) && texts != [] && FindAll(texts[0]) == []
    requires text in ScreenTexts(above + texts + more)
    ensures |above| < k < |above| + |texts| && text in LineTexts(above + texts + more)(k)
  {
    var lines := above + texts + more;
    k := FlatMapFrom(LineTexts(lines), Indices(|lines|), text);
    var found := FoundText(lines, k, text);
    UrlLineIsRow(above, texts, more, k);
  }

  lemma UrlLineIsRow(above: seq<string>, texts: seq<string>, more: seq<string>, j: nat)
    requires NoUrlIn(above, |above|) && NoUrlIn(more, |more|)
    requires texts != [] && FindAll(texts[0]) == []
    requires var lines := above + texts + more; j < |lines| && FindAll(lines[j]) != []
    ensures |above| < j < |above| + |texts|
  {
    var lines := above + texts + more;
    forall k | 0 <= k < |lines| && !(|above| < k < |above| + |texts|)
      ensures FindAll(lines[k]) == []
    {
      assert lines[k] == if k < |above| then above[k] else if k == |above| then texts[0] else more[k - |above| - |texts|];
    }
    assert FindAll(lines[j]) != [];
  }

  /**
   A URL the terminal broke, in any text: no URL on the lines above and no
   scheme begun before it on its first row, margins and trailing blanks on all
   rows, at least 78 bytes up to each piece's end but the last one's, and below
   it nothing it could go on with.  It comes back whole, as the first URL
   extracted, when its first row holds its scheme and one more character; with
   no URL below it, this is needed to find it at all.
   */
  lemma BrokenUrlIsRecovered(above: seq<string>, rows: seq<Row>, more: seq<string>)
    requires NoUrlIn(above, |above|)
    requires AreRows(rows) && IsUrl(UrlOf(rows)) && NoSchemeBefore(rows[0]) && NothingFollows(rows, more)
    ensures var urls, url := ScreenUrls(above + TextsOf(rows) + more), UrlOf(rows);
      && (SchemeLen(url) < |rows[0].piece| ==> urls != [] && urls[0] == TrimUrl(url))
      && (NoUrlIn(more, |more|) ==> (TrimUrl(url) in urls <==> SchemeLen(url) < |rows[0].piece|))
  {
    var url, piece := UrlOf(rows), rows[0].piece;
    PieceBegins(rows);
    if SchemeLen(url) < |piece| {
      assert piece == url[..|piece|];
      PieceIsUrl(url, |piece|);
      FirstUrlIsRecovered(above, rows, more);
    } else if NoUrlIn(more, |more|) {
      LostBehindScheme(above, rows, more);
    }
  }

  /** Text broken where a row of `width` characters ends. */
  function WrapRows(margin: string, s: string, width: nat): (rows: seq<Row>)
    requires |margin| < width
    ensures rows != [] && rows[0].margin == margin && rows[0].piece <= s
    decreases |s|
  {
    var room := width - |margin|;
    if |s| <= room then [Row(margin, s, "")] else [Row(margin, s[..room], "")] + WrapRows("", s[room..], width)
  }

  lemma {:induction false} WrappedIsAll(margin: string, s: string, width: nat)
    requires |margin| < width
    ensures Concat(PiecesOf(WrapRows(margin, s, width))) == s
    ensures Concat(TextsOf(WrapRows(margin, s, width))) == margin + s
    decreases |s|
  {
    var room := width - |margin|;
    var rows := WrapRows(margin, s, width);
    if |s| > room {
      WrappedIsAll("", s[room..], width);
      assert rows[1..] == WrapRows("", s[room..], width);
      assert s == s[..room] + s[room..];
      assert margin + s == margin + (s[..room] + "") + ("" + s[room..]);
    } else {
      assert rows[1..] == [];
      assert s + "" == s && margin + (s + "") + "" == margin + s;
    }
  }

  lemma {:induction false} WrappedAreRows(margin: string, s: string, width: nat)
    requires width >= WRAP_WIDTH && |margin| < width && s != "" && AllUrlChars(s)
    ensures AreRows(WrapRows(margin, s, width))
    decreases |s|
  {
    var room := width - |margin|;
    if |s| > room {
      var rest := WrapRows("", s[room..], width);
      WrappedAreRows("", s[room..], width);
      assert WrapRows(margin, s, width)[1..] == rest;
    }
  }

  /**
   So for a URL broken at any width of at least 78, whose last row is not full
   or stands above a line that does not go on with a URL character: the scheme
   and one more character must fit on its first row.
   */
  lemma WrappedUrlIsRecovered(above: seq<string>, before: string, url: string, width: nat, more: seq<string>)
    requires width >= WRAP_WIDTH && IsUrl(url) && |before| < width
    requires NoUrlIn(above, |above|)
    requires forall k :: 0 <= k < |before| ==> SchemeLen((before + url)[k..]) == 0
    requires NothingFollows(WrapRows(before, url, width), more)
    ensures var urls := ScreenUrls(above + TextsOf(WrapRows(before, url, width)) + more);
      && (|before| + SchemeLen(url) < width ==> urls != [] && urls[0] == TrimUrl(url))
      && (NoUrlIn(more, |more|) ==> (TrimUrl(url) in urls <==> |before| + SchemeLen(url) < width))
  {
    WrappedAreRows(before, url, width);
    WrappedIsAll(before, url, width);
    FirstWrapped(before, url, width);
    BrokenUrlIsRecovered(above, WrapRows(before, url, width), more);
  }

  lemma FirstWrapped(before: string, url: string, width: nat)
    requires IsUrl(url) && |before| < width
    requires forall k :: 0 <= k < |before| ==> SchemeLen((before + url)[k..]) == 0
    ensures var row := WrapRows(before, url, width)[0];
      NoSchemeBefore(row) && (SchemeLen(url) < |row.piece| <==> |before| + SchemeLen(url) < width)
  {
    var row := WrapRows(before, url, width)[0];
    var n := |row.piece|;
    assert row.piece == url[..n];
    forall k | 0 <= k < |row.margin|
      ensures SchemeLen(RowText(row)[k..]) == 0
    {
      assert row.piece + row.blanks == row.piece;
      assert (before + url)[k..] == RowText(row)[k..] + url[n..];
      NoSchemeInPart(RowText(row)[k..], url[n..]);
    }
  }

  lemma PrefixOfMore(prefix: string, part: string, rest: string)
    ensures prefix <= part ==> prefix <= part + rest
  {
  }

  lemma NoSchemeInPart(part: string, rest: string)
    requires SchemeLen(part + rest) == 0
    ensures SchemeLen(part) == 0
  {
    PrefixOfMore("https://", part, rest);
    PrefixOfMore("http://", part, rest);
    PrefixOfMore("www.", part, rest);
  }

  /** For example: 74 characters, and then a URL whose scheme the edge of the screen breaks, are no URL. */
  lemma SchemeAtTheEdge(before: string)
    requires |before| == 74 && forall i :: 0 <= i < 74 ==> before[i] == '-'
    ensures var texts := TextsOf(WrapRows(before, "http://a.b", 78));
      texts == [before + "http", "://a.b"] && ScreenUrls(texts) == []
  {
    EdgeIsLost(before, "http://a.b", "http", "://a.b");
  }

  lemma EdgeIsLost(before: string, url: string, first: string, second: string)
    requires |before| == 74 && forall i :: 0 <= i < 74 ==> before[i] == '-'
    requires url == "http://a.b" && first == "http" && second == "://a.b"
    ensures var texts := TextsOf(WrapRows(before, url, 78)); texts == [before + first, second] && ScreenUrls(texts) == []
  {
    EdgeRows(before, url, first, second);
    EdgeUrl(url);
    DashesHideScheme(before, url, first);
    NoSchemeNoUrl(second);
    NoUrlInTwo(before + first, second);
  }

  lemma EdgeUrl(url: string)
    requires url == "http://a.b"
    ensures IsUrl(url) && SchemeLen(url) == 7
  {
    assert url[..7] == "http://";
    assert url[4] == ':' && "https://"[4] == 's';
  }

  lemma EdgeRows(before: string, url: string, first: string, second: string)
    requires |before| == 74 && url == "http://a.b" && first == "http" && second == "://a.b"
    ensures TextsOf(WrapRows(before, url, 78)) == [before + first, second] && first <= url
  {
    assert url[..4] == first && url[4..] == second;
    WrapsInTwo(before, url, 78, 4);
  }

  lemma DashesHideScheme(before: string, url: string, first: string)
    requires IsUrl(url) && first <= url && 0 < |first| <= SchemeLen(url)
    requires forall i :: 0 <= i < |before| ==> before[i] == '-'
    ensures FindAll(before + first) == []
  {
    var row := Row(before, first, "");
    assert first == url[..|first|];
    assert RowText(row) == before + first;
    NoSchemeInMargin(row);
    NothingFoundInScheme(row, url);
  }

  /** And a URL that fills its row takes along the word below it. */
  lemma FullRowTakesAlong(url: string)
    requires IsUrl(url) && |url| == WRAP_WIDTH
    ensures ScreenTexts([url, "and"]) != [] && ScreenTexts([url, "and"])[0] == url + "and"
  {
    WordBelow(url, "and");
  }

  lemma WordBelow(url: string, word: string)
    requires IsUrl(url) && |url| == WRAP_WIDTH && word == "and"
    ensures ScreenTexts([url, word]) != [] && ScreenTexts([url, word])[0] == url + word
  {
    var rows := [Row("", url, ""), Row("", word, "")];
    TwoRows(rows, url, word);
    OneByteEach(word);
    assert rows[1].margin + rows[1].piece == word;
    FirstTextIsUrl([], rows, []);
    assert [] + TextsOf(rows) + [] == [url, word];
  }

  lemma {:induction false} OneByteEach(s: string)
    requires AllUrlChars(s)
    ensures ByteLen(s) == |s|
  {
    if s != "" {
      OneByteEach(s[1..]);
    }
  }

  lemma TwoRows(rows: seq<Row>, url: string, word: string)
    requires rows == [Row("", url, ""), Row("", word, "")]
    requires IsUrl(url) && |url| == WRAP_WIDTH && word != "" && AllUrlChars(word)
    ensures AreRows(rows) && TextsOf(rows) == [url, word] && UrlOf(rows) == url + word
  {
    assert rows[1..] == [rows[1]] && [rows[1]][1..] == [];
    assert RowText(rows[0]) == url && RowText(rows[1]) == word;
    assert TextsOf([rows[1]]) == [word] + TextsOf([]) && PiecesOf([rows[1]]) == [word] + PiecesOf([]);
    UrlBeginsWith(rows);
    UrlBeginsWith([rows[1]]);
  }

  lemma WrapsInTwo(before: string, url: string, width: nat, n: nat)
    requires |before| + n == width && 0 < n < |url| <= n + width
    ensures WrapRows(before, url, width) == [Row(before, url[..n], ""), Row("", url[n..], "")]
    ensures TextsOf(WrapRows(before, url, width)) == [before + url[..n], url[n..]]
  {
    var first, last := Row(before, url[..n], ""), Row("", url[n..], "");
    assert WrapRows("", url[n..], width) == [last];
    assert RowText(first) == before + url[..n] && RowText(last) == url[n..];
    assert [first, last][1..] == [last] && [last][1..] == [];
    assert TextsOf([last]) == [RowText(last)] + TextsOf([]);
  }

  lemma {:induction false} NoSchemeNoUrl(s: string)
    requires forall k :: 0 <= k < |s| ==> s[k] != 'h' && s[k] != 'w'
    ensures FindAll(s) == []
  {
    if s != "" {
      NoSchemeNoUrl(s[1..]);
      SchemeBegins(s);
    }
  }

  lemma NoUrlInTwo(first: string, second: string)
    requires FindAll(first) == [] && FindAll(second) == []
    ensures ScreenUrls([first, second]) == []
  {
    var lines := [first, second];
    forall j | 0 <= j < 2
      ensures LineTexts(lines)(j) == []
    {
      LineTextsAre(lines, j, FindAll(lines[j]));
    }
    FlatMapNothing(LineTexts(lines), Indices(2));
  }
}
