/**
 Sequences seen as text: splitting and joining on a separator, trimming from
 either end, searching. These are the library calls (`strings.Split`,
 `strings.Join`, `strings.TrimRight`, ...) that the modelled code is built on.
 */
module Text {

  datatype Option<+T> = None | Some(value: T)

  // ---------------------------------------------------------------- suffixes

  /** The last `n` elements of `s`, or all of them when there are fewer. */
  function LastN<T>(s: seq<T>, n: nat): (r: seq<T>)
    ensures |r| == if |s| < n then |s| else n
  {
    if |s| <= n then s else s[|s| - n..]
  }

  /** The results of `f`, one after another. */
  function FlatMap<A, B>(f: A -> seq<B>, s: seq<A>): seq<B> {
    if s == [] then [] else FlatMap(f, s[..|s| - 1]) + f(s[|s| - 1])
  }

  lemma FlatMapSnoc<A, B>(f: A -> seq<B>, s: seq<A>, x: A)
    ensures FlatMap(f, s + [x]) == FlatMap(f, s) + f(x)
  {
    assert (s + [x])[..|s|] == s;
  }

  lemma {:induction false} FlatMapConcat<A, B>(f: A -> seq<B>, a: seq<A>, b: seq<A>)
    ensures FlatMap(f, a + b) == FlatMap(f, a) + FlatMap(f, b)
  {
    if b == [] {
      assert a + b == a;
    } else {
      var n := |b| - 1;
      FlatMapConcat(f, a, b[..n]);
      assert (a + b)[..|a + b| - 1] == a + b[..n];
    }
  }

  lemma {:induction false} FlatMapNothing<A, B>(f: A -> seq<B>, s: seq<A>)
    requires forall k :: 0 <= k < |s| ==> f(s[k]) == []
    ensures FlatMap(f, s) == []
  {
    if s != [] {
      FlatMapNothing(f, s[..|s| - 1]);
    }
  }

  lemma {:induction false} FlatMapFirst<A, B>(f: A -> seq<B>, s: seq<A>, j: nat)
    requires j < |s| && f(s[j]) != [] && forall k :: 0 <= k < j ==> f(s[k]) == []
    ensures FlatMap(f, s) != [] && FlatMap(f, s)[0] == f(s[j])[0]
  {
    var n := |s| - 1;
    if j < n {
      FlatMapFirst(f, s[..n], j);
    } else {
      FlatMapNothing(f, s[..n]);
    }
  }

  /** What the results hold stands in one of them. */
  lemma {:induction false} FlatMapFrom<A, B>(f: A -> seq<B>, s: seq<A>, x: B) returns (j: nat)
    requires x in FlatMap(f, s)
    ensures j < |s| && x in f(s[j])
  {
    var n := |s| - 1;
    if x in f(s[n]) {
      j := n;
    } else {
      j := FlatMapFrom(f, s[..n], x);
    }
  }

  lemma {:induction false} FlatMapHas<A, B>(f: A -> seq<B>, s: seq<A>, j: nat, x: B)
    requires j < |s| && x in f(s[j])
    ensures x in FlatMap(f, s)
  {
    if j < |s| - 1 {
      FlatMapHas(f, s[..|s| - 1], j, x);
    }
  }

  lemma SliceOfSlice<T>(s: seq<T>, a: nat, b: nat, i: nat, j: nat)
    requires a <= b <= |s| && i <= j <= b - a
    ensures s[a..b][i..j] == s[a + i..a + j]
  {
    var part := s[a..b];
    assert forall k :: 0 <= k < b - a ==> part[k] == s[a + k];
    forall k | 0 <= k < j - i
      ensures part[i..j][k] == s[a + i..a + j][k]
    {
      assert part[i..j][k] == part[i + k];
    }
  }

  lemma MoveOne<T>(s: seq<T>, more: seq<T>)
    requires more != []
    ensures s + more == s + [more[0]] + more[1..]
  {
  }

  lemma ButLastAndLast<T>(s: seq<T>)
    requires s != []
    ensures s == s[..|s| - 1] + [s[|s| - 1]]
  {
  }

  lemma AppendAssoc<T>(a: seq<T>, b: seq<T>, c: seq<T>)
    ensures a + (b + c) == a + b + c
  {
  }

  // ---------------------------------------------------------- split and join

  function Split<T(==)>(s: seq<T>, sep: T): (parts: seq<seq<T>>)
    ensures |parts| >= 1
  {
    if s == [] then [[]]
    else
      var rest := Split(s[1..], sep);
      if s[0] == sep then [[]] + rest else Prepend(s[0], rest)
  }

  function Prepend<T>(c: T, parts: seq<seq<T>>): (r: seq<seq<T>>)
    requires |parts| >= 1
    ensures |r| == |parts|
  {
    [[c] + parts[0]] + parts[1..]
  }

  function Join<T>(parts: seq<seq<T>>, sep: T): seq<T> {
    if parts == [] then []
    else if |parts| == 1 then parts[0]
    else parts[0] + [sep] + Join(parts[1..], sep)
  }

  ghost predicate NoneContains<T>(parts: seq<seq<T>>, sep: T) {
    forall i :: 0 <= i < |parts| ==> sep !in parts[i]
  }

  /** Two split texts put end to end: the seam joins the last part of one to the first of the other. */
  ghost function Glue<T>(a: seq<seq<T>>, b: seq<seq<T>>): seq<seq<T>>
    requires |a| >= 1 && |b| >= 1
  {
    a[..|a| - 1] + [a[|a| - 1] + b[0]] + b[1..]
  }

  lemma {:induction false} SplitPartsAreClean<T>(s: seq<T>, sep: T)
    ensures forall i :: 0 <= i < |Split(s, sep)| ==> sep !in Split(s, sep)[i]
  {
    if s != [] {
      SplitPartsAreClean(s[1..], sep);
    }
  }

  lemma {:induction false} JoinSplit<T>(s: seq<T>, sep: T)
    ensures Join(Split(s, sep), sep) == s
  {
    if s != [] {
      JoinSplit(s[1..], sep);
      var rest := Split(s[1..], sep);
      if s[0] == sep {
        assert ([[]] + rest)[1..] == rest;
        assert s == [s[0]] + s[1..];
      } else {
        var first := [s[0]] + rest[0];
        assert ([first] + rest[1..])[1..] == rest[1..];
        if |rest| > 1 {
          assert Join([first] + rest[1..], sep) == first + [sep] + Join(rest[1..], sep);
          assert s == [s[0]] + (rest[0] + [sep] + Join(rest[1..], sep));
        }
      }
    }
  }

  lemma {:induction false} SplitClean<T>(s: seq<T>, sep: T)
    requires sep !in s
    ensures Split(s, sep) == [s]
  {
    if s != [] {
      SplitClean(s[1..], sep);
      assert [s[0]] + s[1..] == s;
    }
  }

  lemma GlueOpened<T>(a: seq<seq<T>>, b: seq<seq<T>>)
    requires |a| >= 1 && |b| >= 1
    ensures Glue([[]] + a, b) == [[]] + Glue(a, b)
  {
    assert ([[]] + a)[..|a|] == [[]] + a[..|a| - 1];
  }

  lemma GluePrepended<T>(c: T, a: seq<seq<T>>, b: seq<seq<T>>)
    requires |a| >= 1 && |b| >= 1
    ensures Glue(Prepend(c, a), b) == Prepend(c, Glue(a, b))
  {
    if |a| == 1 {
      assert [c] + a[0] + b[0] == [c] + (a[0] + b[0]);
    }
  }

  lemma {:induction false} SplitConcat<T>(a: seq<T>, b: seq<T>, sep: T)
    ensures Split(a + b, sep) == Glue(Split(a, sep), Split(b, sep))
  {
    if a == [] {
      assert a + b == b;
      assert [] + Split(b, sep)[0] == Split(b, sep)[0];
    } else {
      SplitConcat(a[1..], b, sep);
      assert (a + b)[1..] == a[1..] + b;
      var x, y := Split(a[1..], sep), Split(b, sep);
      if a[0] == sep {
        GlueOpened(x, y);
      } else {
        GluePrepended(a[0], x, y);
      }
    }
  }

  /** Reading a separator ends the last part and opens an empty one. */
  lemma SplitSeparated<T>(a: seq<T>, b: seq<T>, sep: T)
    ensures Split(a + [sep] + b, sep) == Split(a, sep) + Split(b, sep)
  {
    SplitConcat(a, [sep] + b, sep);
    assert a + [sep] + b == a + ([sep] + b);
    assert ([sep] + b)[1..] == b;
    var x, y := Split(a, sep), Split(b, sep);
    assert x[|x| - 1] + [] == x[|x| - 1];
    assert Glue(x, [[]] + y) == x + y;
  }

  /** A longer text keeps the parts that were complete, and may complete more. */
  lemma SplitGrows<T>(a: seq<T>, b: seq<T>, sep: T) returns (more: seq<seq<T>>)
    ensures var x, all := Split(a, sep), Split(a + b, sep); all[..|all| - 1] == x[..|x| - 1] + more
  {
    SplitConcat(a, b, sep);
    var x, y := Split(a, sep), Split(b, sep);
    var n := |x| - 1;
    var seam := [x[n] + y[0]] + y[1..];
    assert Glue(x, y) == x[..n] + seam by {
      AppendAssoc(x[..n], [x[n] + y[0]], y[1..]);
    }
    more := seam[..|seam| - 1];
    ButLast(x[..n], seam);
  }

  lemma ButLast<T>(a: seq<T>, b: seq<T>)
    requires b != []
    ensures (a + b)[..|a + b| - 1] == a + b[..|b| - 1]
  {
  }

  lemma {:induction false} SplitJoin<T>(parts: seq<seq<T>>, sep: T)
    requires |parts| >= 1
    requires NoneContains(parts, sep)
    ensures Split(Join(parts, sep), sep) == parts
  {
    if |parts| == 1 {
      SplitClean(parts[0], sep);
    } else {
      SplitJoin(parts[1..], sep);
      SplitClean(parts[0], sep);
      SplitSeparated(parts[0], Join(parts[1..], sep), sep);
    }
  }

  // ---------------------------------------------------------------- trimming

  /** The first index from `i` on whose element stays. */
  function FirstUncut<T>(s: seq<T>, i: nat, cut: T -> bool): (r: nat)
    requires i <= |s|
    ensures i <= r <= |s| && (r < |s| ==> !cut(s[r]))
    decreases |s| - i
  {
    if i < |s| && cut(s[i]) then FirstUncut(s, i + 1, cut) else i
  }

  /** The end of what stays of the first `j` elements. */
  function EndUncut<T>(s: seq<T>, j: nat, cut: T -> bool): (r: nat)
    requires j <= |s|
    ensures r <= j && (r > 0 ==> !cut(s[r - 1]))
  {
    if j > 0 && cut(s[j - 1]) then EndUncut(s, j - 1, cut) else j
  }

  function TrimLeft<T>(s: seq<T>, cut: T -> bool): seq<T> {
    s[FirstUncut(s, 0, cut)..]
  }

  function TrimRight<T>(s: seq<T>, cut: T -> bool): seq<T> {
    s[..EndUncut(s, |s|, cut)]
  }

  function Trim<T>(s: seq<T>, cut: T -> bool): seq<T> {
    var i, j := FirstUncut(s, 0, cut), EndUncut(s, |s|, cut);
    if i <= j then s[i..j] else []
  }

  lemma {:induction false} FirstUncutIs<T>(s: seq<T>, i: nat, r: nat, cut: T -> bool)
    requires i <= r <= |s| && (r < |s| ==> !cut(s[r]))
    requires forall k :: i <= k < r ==> cut(s[k])
    ensures FirstUncut(s, i, cut) == r
    decreases |s| - i
  {
    if i < r {
      FirstUncutIs(s, i + 1, r, cut);
    }
  }

  lemma {:induction false} EndUncutIs<T>(s: seq<T>, j: nat, r: nat, cut: T -> bool)
    requires r <= j <= |s| && (r > 0 ==> !cut(s[r - 1]))
    requires forall k :: r <= k < j ==> cut(s[k])
    ensures EndUncut(s, j, cut) == r
  {
    if r < j {
      EndUncutIs(s, j - 1, r, cut);
    }
  }

  lemma {:induction false} CutBefore<T>(s: seq<T>, i: nat, cut: T -> bool)
    requires i <= |s|
    ensures forall k :: i <= k < FirstUncut(s, i, cut) ==> cut(s[k])
    decreases |s| - i
  {
    if i < |s| && cut(s[i]) {
      CutBefore(s, i + 1, cut);
    }
  }

  lemma {:induction false} CutAfter<T>(s: seq<T>, j: nat, cut: T -> bool)
    requires j <= |s|
    ensures forall k :: EndUncut(s, j, cut) <= k < j ==> cut(s[k])
  {
    if j > 0 && cut(s[j - 1]) {
      CutAfter(s, j - 1, cut);
    }
  }

  /** A trimmed text is determined by where its last uncut element stands. */
  lemma TrimRightIs<T>(body: seq<T>, tail: seq<T>, cut: T -> bool)
    requires body != [] ==> !cut(body[|body| - 1])
    requires forall i :: 0 <= i < |tail| ==> cut(tail[i])
    ensures TrimRight(body + tail, cut) == body
  {
    var s := body + tail;
    assert forall k :: |body| <= k < |s| ==> s[k] == tail[k - |body|];
    EndUncutIs(s, |s|, |body|, cut);
    assert s[..|body|] == body;
  }

  lemma TrimLeftIs<T>(head: seq<T>, body: seq<T>, cut: T -> bool)
    requires body != [] ==> !cut(body[0])
    requires forall i :: 0 <= i < |head| ==> cut(head[i])
    ensures TrimLeft(head + body, cut) == body
  {
    var s := head + body;
    FirstUncutIs(s, 0, |head|, cut);
    assert s[|head|..] == body;
  }

  /** Nothing stays exactly when every element is cut. */
  lemma TrimAllCut<T>(s: seq<T>, cut: T -> bool)
    ensures Trim(s, cut) == [] <==> forall k :: 0 <= k < |s| ==> cut(s[k])
  {
    CutBefore(s, 0, cut);
    CutAfter(s, |s|, cut);
    var i, j := FirstUncut(s, 0, cut), EndUncut(s, |s|, cut);
    if i < |s| {
      assert j > i;
    }
  }

  /** Trimming keeps a range, and the ends of the range stay. */
  lemma TrimIsRange<T>(s: seq<T>, cut: T -> bool) returns (i: nat, j: nat)
    ensures i <= j <= |s| && Trim(s, cut) == s[i..j]
    ensures i < j ==> !cut(s[i]) && !cut(s[j - 1])
  {
    i, j := FirstUncut(s, 0, cut), EndUncut(s, |s|, cut);
    if i > j {
      i := j;
    }
  }

  /** Trimming a slice gives a slice. */
  lemma TrimSlice<T>(s: seq<T>, p: nat, q: nat, cut: T -> bool) returns (a: nat, b: nat)
    requires p <= q <= |s|
    ensures p <= a <= b <= q && Trim(s[p..q], cut) == s[a..b]
    ensures a < b ==> !cut(s[a]) && !cut(s[b - 1])
  {
    var part := s[p..q];
    var i, j := TrimIsRange(part, cut);
    a, b := p + i, p + j;
    SliceOfSlice(s, p, q, i, j);
    if i < j {
      assert part[i] == s[a] && part[j - 1] == s[b - 1];
    }
  }

  /** Trimming a sequence that ends in `x` gives a range before it, or all from some element to it. */
  lemma TrimBeforeLast<T>(s: seq<T>, x: T, cut: T -> bool) returns (i: nat, j: nat)
    ensures i <= j <= |s| && (i < j ==> !cut(s[i]))
    ensures if cut(x) then Trim(s + [x], cut) == s[i..j] && (i < j ==> !cut(s[j - 1]))
            else Trim(s + [x], cut) == s[i..j] + [x] && j == |s|
  {
    var t := s + [x];
    assert t[|s|] == x;
    if cut(x) {
      var k, l := TrimIsRange(t, cut);
      if k < l {
        assert l - 1 != |s|;
        i, j := k, l;
        assert t[k..l] == s[i..j];
      } else {
        i, j := 0, 0;
      }
    } else {
      i, j := FirstUncut(t, 0, cut), |s|;
      CutBefore(t, 0, cut);
      assert t[i..|t|] == s[i..j] + [x];
    }
  }

  /** The same for a slice and an element further on. */
  lemma TrimSliceAndLast<T>(s: seq<T>, p: nat, m: nat, last: T, cut: T -> bool) returns (a: nat, b: nat)
    requires p <= m <= |s|
    ensures p <= a <= b <= m && (a < b ==> !cut(s[a]))
    ensures if cut(last) then Trim(s[p..m] + [last], cut) == s[a..b] && (a < b ==> !cut(s[b - 1]))
            else Trim(s[p..m] + [last], cut) == s[a..b] + [last] && b == m
  {
    var i, j := TrimBeforeLast(s[p..m], last, cut);
    a, b := p + i, p + j;
    SliceOfSlice(s, p, m, i, j);
    SliceEnds(s, p, m, i, j);
  }

  lemma SliceEnds<T>(s: seq<T>, p: nat, m: nat, i: nat, j: nat)
    requires p <= m <= |s| && i <= j <= m - p
    ensures i < j ==> s[p..m][i] == s[p + i] && s[p..m][j - 1] == s[p + j - 1]
  {
  }

  /** The first and the last uncut element; |s| and -1 when there is none. */
  method UncutRange<T>(s: seq<T>, cut: T -> bool) returns (first: nat, last: int)
    ensures last == -1 <==> forall i :: 0 <= i < |s| ==> cut(s[i])
    ensures last != -1 ==> first <= last < |s| && Trim(s, cut) == s[first..last + 1]
  {
    first := 0;
    while first < |s| && cut(s[first])
      invariant 0 <= first <= |s|
      invariant forall i :: 0 <= i < first ==> cut(s[i])
    {
      first := first + 1;
    }
    last := |s| - 1;
    while last >= 0 && cut(s[last])
      invariant -1 <= last < |s|
      invariant forall i :: last < i < |s| ==> cut(s[i])
    {
      last := last - 1;
    }
    if last != -1 {
      FirstUncutIs(s, 0, first, cut);
      EndUncutIs(s, |s|, last + 1, cut);
    }
  }

  // ------------------------------------------------------------------ search

  /** The last element before `i`, but none before `low`, that satisfies `p`; -1 when there is none. */
  function LastWhere<T>(s: seq<T>, i: nat, low: nat, p: T -> bool): (r: int)
    requires i <= |s|
    ensures r == -1 || low <= r < i
  {
    if i <= low then -1 else if p(s[i - 1]) then i - 1 else LastWhere(s, i - 1, low, p)
  }

  lemma {:induction false} LastWhereIsLast<T>(s: seq<T>, i: nat, low: nat, p: T -> bool)
    requires i <= |s|
    ensures var r := LastWhere(s, i, low, p);
            && (r != -1 ==> p(s[r]))
            && (forall k :: low <= k < i && r < k ==> !p(s[k]))
  {
    if i > low && !p(s[i - 1]) {
      LastWhereIsLast(s, i - 1, low, p);
    }
  }

  /** A search from the back. */
  method FindLastWhere<T>(s: seq<T>, low: nat, p: T -> bool) returns (r: int)
    ensures r == LastWhere(s, |s|, low, p)
  {
    r := |s| - 1;
    while r >= low
      invariant -1 <= r < |s|
      invariant LastWhere(s, |s|, low, p) == LastWhere(s, r + 1, low, p)
    {
      if p(s[r]) {
        return;
      }
      r := r - 1;
    }
    r := -1;
  }

  predicate OccursAt<T(==)>(s: seq<T>, sub: seq<T>, i: int) {
    0 <= i <= |s| - |sub| && s[i..i + |sub|] == sub
  }

  predicate Contains<T(==)>(s: seq<T>, sub: seq<T>) {
    sub <= s || (s != [] && Contains(s[1..], sub))
  }

  lemma OccursLater<T>(s: seq<T>, sub: seq<T>, i: int)
    requires s != [] && i >= 1
    ensures OccursAt(s, sub, i) <==> OccursAt(s[1..], sub, i - 1)
  {
    if i + |sub| <= |s| {
      SliceOfSlice(s, 1, |s|, i - 1, i - 1 + |sub|);
    }
  }

  lemma {:induction false} OccurrenceIsContained<T>(s: seq<T>, sub: seq<T>, i: int)
    requires OccursAt(s, sub, i)
    ensures Contains(s, sub)
    decreases i
  {
    if i > 0 {
      OccursLater(s, sub, i);
      OccurrenceIsContained(s[1..], sub, i - 1);
    }
  }

  lemma {:induction false} ContainedOccurs<T>(s: seq<T>, sub: seq<T>) returns (i: int)
    requires Contains(s, sub)
    ensures OccursAt(s, sub, i)
  {
    if sub <= s {
      i := 0;
    } else {
      var j := ContainedOccurs(s[1..], sub);
      i := j + 1;
      OccursLater(s, sub, i);
    }
  }

  lemma ContainsMeans<T>(s: seq<T>, sub: seq<T>)
    ensures Contains(s, sub) <==> exists i :: OccursAt(s, sub, i)
  {
    if Contains(s, sub) {
      var i := ContainedOccurs(s, sub);
    }
    if i :| OccursAt(s, sub, i) {
      OccurrenceIsContained(s, sub, i);
    }
  }

  predicate HasPrefix<T(==)>(s: seq<T>, prefix: seq<T>) {
    prefix <= s
  }

  predicate HasSuffix<T(==)>(s: seq<T>, suffix: seq<T>) {
    |suffix| <= |s| && s[|s| - |suffix|..] == suffix
  }

  // ------------------------------------------------------ character classes

  /** Go's `strings.TrimSpace`: Unicode White_Space. */
  predicate IsSpace(c: char) {
    || '\t' <= c <= '\r'
    || c == ' '
    || c as int == 0x85 || c as int == 0xA0 || c as int == 0x1680
    || 0x2000 <= c as int <= 0x200a
    || c as int == 0x2028 || c as int == 0x2029 || c as int == 0x202f
    || c as int == 0x205f || c as int == 0x3000
  }

  /** `msgfmt.WhiteSpaceChars`: space, tab, newline, return, form feed, vertical tab. */
  predicate IsWhiteSpaceChar(c: char) {
    c == ' ' || '\t' <= c <= '\r'
  }

  predicate IsNewline(c: char) {
    c == '\n'
  }

  function TrimSpace(s: string): string {
    Trim(s, IsSpace)
  }

  /** What `strings.TrimSpace` leaves nothing of. */
  predicate IsBlank(line: string) {
    line == "" || (IsSpace(line[0]) && IsBlank(line[1..]))
  }

  lemma {:induction false} BlankIsAllSpace(line: string)
    ensures IsBlank(line) <==> forall i :: 0 <= i < |line| ==> IsSpace(line[i])
  {
    if line != "" {
      BlankIsAllSpace(line[1..]);
      assert forall i :: 0 < i < |line| ==> line[i] == line[1..][i - 1];
    }
  }

  lemma BlankIsTrimmedAway(line: string)
    ensures IsBlank(line) <==> TrimSpace(line) == ""
  {
    BlankIsAllSpace(line);
    TrimAllCut(line, IsSpace);
  }

  // ------------------------------------------------------------------- lines

  function Lines(text: string): (lines: seq<string>)
    ensures |lines| >= 1
  {
    Split(text, '\n')
  }

  function Unlines(lines: seq<string>): string {
    Join(lines, '\n')
  }

  /** No line holds a newline: what splitting a text yields. */
  ghost predicate AreLines(lines: seq<string>) {
    NoneContains(lines, '\n')
  }

  lemma LinesOfUnlines(lines: seq<string>)
    requires AreLines(lines)
    ensures Lines(Unlines(lines)) == if lines == [] then [""] else lines
  {
    if lines != [] {
      SplitJoin(lines, '\n');
    }
  }

  lemma UnlinesOfLines(text: string)
    ensures Unlines(Lines(text)) == text
    ensures AreLines(Lines(text))
  {
    JoinSplit(text, '\n');
    SplitPartsAreClean(text, '\n');
  }
}
