/**
 lib/msgfmt/format_tool_call.go: cutting an agent's own status reports out of
 its messages.  One scan finds the ranges of lines to cut, a second pass cuts
 them from the back.
 */
module ToolCalls {
  import opened Text
  import opened UserInput

  // ------------------------------------------------------------------ ranges

  /** Lines `start` up to, not including, `end`; `malformed` when the call never finished. */
  datatype Range = Range(start: nat, end: nat, malformed: bool)

  /** The ranges can be cut from the back without leaving the text. */
  predicate Fits(ranges: seq<Range>, n: nat) {
    ranges == [] ||
    var r := ranges[|ranges| - 1];
    && r.start <= n && r.end <= n && (!r.malformed ==> r.start < r.end)
    && Fits(ranges[..|ranges| - 1], r.start)
  }

  lemma FitsMore(ranges: seq<Range>, n: nat, more: nat)
    requires Fits(ranges, n) && n <= more
    ensures Fits(ranges, more)
  {
  }

  /** In bounds, non-empty, in order and disjoint. */
  predicate Ordered(ranges: seq<Range>, n: nat) {
    ranges == [] ||
    var r := ranges[|ranges| - 1];
    r.start < r.end <= n && Ordered(ranges[..|ranges| - 1], r.start)
  }

  lemma {:induction false} OrderedFits(ranges: seq<Range>, n: nat)
    requires Ordered(ranges, n)
    ensures Fits(ranges, n)
  {
    if ranges != [] {
      OrderedFits(ranges[..|ranges| - 1], ranges[|ranges| - 1].start);
    }
  }

  lemma {:induction false} OrderedIs(ranges: seq<Range>, n: nat)
    requires Ordered(ranges, n)
    ensures forall r :: r in ranges ==> r.start < r.end <= n
    ensures forall i, j :: 0 <= i < j < |ranges| ==> ranges[i].end <= ranges[j].start
  {
    if ranges != [] {
      var m := |ranges| - 1;
      OrderedIs(ranges[..m], ranges[m].start);
      forall r | r in ranges
        ensures r.start < r.end <= n
      {
        assert r == ranges[m] || r in ranges[..m];
      }
      forall i, j | 0 <= i < j < |ranges|
        ensures ranges[i].end <= ranges[j].start
      {
        assert ranges[..m][i] == ranges[i] && ranges[i] in ranges[..m];
        if j < m {
          assert ranges[..m][j] == ranges[j];
        }
      }
    }
  }

  // ----------------------------------------------------------------- cutting

  function DeleteAll(lines: seq<string>, ranges: seq<Range>): seq<string>
    requires Fits(ranges, |lines|)
    decreases |ranges|
  {
    if ranges == [] then lines
    else
      var r := ranges[|ranges| - 1];
      FitsMore(ranges[..|ranges| - 1], r.start, r.start + |lines[r.end..]|);
      DeleteAll(lines[..r.start] + lines[r.end..], ranges[..|ranges| - 1])
  }

  /** The finished calls, last one first. */
  function CallTexts(lines: seq<string>, ranges: seq<Range>): seq<string>
    requires Fits(ranges, |lines|)
    decreases |ranges|
  {
    if ranges == [] then []
    else
      var r := ranges[|ranges| - 1];
      (if r.malformed then [] else [Unlines(lines[r.start..r.end])])
      + CallTexts(lines[..r.start], ranges[..|ranges| - 1])
  }

  lemma {:induction false} CallTextsAreOriginal(lines: seq<string>, more: seq<string>, ranges: seq<Range>)
    requires Fits(ranges, |lines|)
    ensures CallTexts(lines + more, ranges) == CallTexts(lines, ranges)
  {
    if ranges != [] {
      var r := ranges[|ranges| - 1];
      assert (lines + more)[..r.start] == lines[..r.start];
      if !r.malformed {
        assert (lines + more)[r.start..r.end] == lines[r.start..r.end];
      }
    }
  }

  lemma CutLast(lines: seq<string>, ranges: seq<Range>)
    requires Fits(ranges, |lines|) && ranges != []
    ensures var r := ranges[|ranges| - 1]; var rest := lines[..r.start] + lines[r.end..]; var fewer := ranges[..|ranges| - 1];
      && Fits(fewer, |rest|)
      && DeleteAll(lines, ranges) == DeleteAll(rest, fewer)
      && CallTexts(lines, ranges) ==
         (if r.malformed then [] else [Unlines(lines[r.start..r.end])]) + CallTexts(rest, fewer)
  {
    var r := ranges[|ranges| - 1];
    CallTextsAreOriginal(lines[..r.start], lines[r.end..], ranges[..|ranges| - 1]);
  }

  /** What is left to do after cutting the last of some ranges. */
  lemma CutStep(ranges: seq<Range>, lines: seq<string>, calls: seq<string>, allCalls: seq<string>)
    requires Fits(ranges, |lines|) && ranges != []
    requires calls + CallTexts(lines, ranges) == allCalls
    ensures var r := ranges[|ranges| - 1]; var fewer := ranges[..|ranges| - 1];
      var rest := lines[..r.start] + lines[r.end..];
      && Fits(fewer, |rest|)
      && DeleteAll(rest, fewer) == DeleteAll(lines, ranges)
      && (r.malformed ==> calls + CallTexts(rest, fewer) == allCalls)
      && (!r.malformed ==> calls + [Unlines(lines[r.start..r.end])] + CallTexts(rest, fewer) == allCalls)
  {
    CutLast(lines, ranges);
    var r := ranges[|ranges| - 1];
    if !r.malformed {
      var block, more := [Unlines(lines[r.start..r.end])], CallTexts(lines[..r.start] + lines[r.end..], ranges[..|ranges| - 1]);
      assert calls + block + more == calls + (block + more);
    }
  }

  /** Both removers end with this loop. */
  method CutRanges(message: seq<string>, ranges: seq<Range>) returns (lines: seq<string>, calls: seq<string>)
    requires Fits(ranges, |message|)
    ensures lines == DeleteAll(message, ranges)
    ensures calls == CallTexts(message, ranges)
  {
    lines, calls := message, [];
    var i := |ranges| - 1;
    ghost var left := ranges;
    while i >= 0
      invariant -1 <= i < |ranges|
      invariant left == ranges[..i + 1] && Fits(left, |lines|)
      invariant DeleteAll(lines, left) == DeleteAll(message, ranges)
      invariant calls + CallTexts(lines, left) == CallTexts(message, ranges)
    {
      CutStep(left, lines, calls, CallTexts(message, ranges));
      var start, end := ranges[i].start, ranges[i].end;
      if !ranges[i].malformed {
        calls := calls + [Unlines(lines[start..end])];
      }
      lines := lines[..start] + lines[end..];
      left := left[..i];
      i := i - 1;
    }
  }

  ghost predicate Covered(ranges: seq<Range>, i: nat) {
    exists r :: r in ranges && r.start <= i < r.end
  }

  /** The first `n` lines without those inside a range. */
  ghost function Outside(lines: seq<string>, n: nat, ranges: seq<Range>): seq<string>
    requires n <= |lines|
  {
    if n == 0 then []
    else Outside(lines, n - 1, ranges) + if Covered(ranges, n - 1) then [] else [lines[n - 1]]
  }

  lemma {:induction false} OutsidePrefix(lines: seq<string>, n: nat, all: seq<string>, ranges: seq<Range>, fewer: seq<Range>)
    requires n <= |lines| <= |all| && lines[..n] == all[..n]
    requires forall i :: 0 <= i < n ==> (Covered(ranges, i) <==> Covered(fewer, i))
    ensures Outside(lines, n, fewer) == Outside(all, n, ranges)
  {
    if n > 0 {
      assert lines[..n][..n - 1] == lines[..n - 1] && all[..n][..n - 1] == all[..n - 1];
      assert lines[n - 1] == lines[..n][n - 1] == all[n - 1];
      OutsidePrefix(lines, n - 1, all, ranges, fewer);
    }
  }

  lemma {:induction false} OutsideSkips(lines: seq<string>, a: nat, b: nat, ranges: seq<Range>)
    requires a <= b <= |lines|
    requires forall i :: a <= i < b ==> Covered(ranges, i)
    ensures Outside(lines, b, ranges) == Outside(lines, a, ranges)
    decreases b
  {
    if a < b {
      assert Covered(ranges, b - 1);
      OutsideSkips(lines, a, b - 1, ranges);
    }
  }

  lemma {:induction false} OutsideKeeps(lines: seq<string>, a: nat, b: nat, ranges: seq<Range>)
    requires a <= b <= |lines|
    requires forall i :: a <= i < b ==> !Covered(ranges, i)
    ensures Outside(lines, b, ranges) == Outside(lines, a, ranges) + lines[a..b]
    decreases b
  {
    if a < b {
      assert !Covered(ranges, b - 1);
      OutsideKeeps(lines, a, b - 1, ranges);
      assert lines[a..b] == lines[a..b - 1] + [lines[b - 1]];
    }
  }

  lemma {:induction false} DeleteLeavesTail(lines: seq<string>, tail: seq<string>, ranges: seq<Range>)
    requires Fits(ranges, |lines|)
    ensures Fits(ranges, |lines + tail|)
    ensures DeleteAll(lines + tail, ranges) == DeleteAll(lines, ranges) + tail
    decreases |ranges|
  {
    if ranges == [] {
    } else {
      var r := ranges[|ranges| - 1];
      DeleteLeavesTail(lines[..r.start] + lines[r.end..], tail, ranges[..|ranges| - 1]);
      assert (lines + tail)[..r.start] + (lines + tail)[r.end..] == lines[..r.start] + lines[r.end..] + tail;
    }
  }

  lemma CoveredByOthers(ranges: seq<Range>, n: nat, i: nat)
    requires ranges != [] && Ordered(ranges, n)
    ensures var m := |ranges| - 1;
      Covered(ranges, i) <==> Covered(ranges[..m], i) || ranges[m].start <= i < ranges[m].end
    ensures Covered(ranges, i) ==> i < ranges[|ranges| - 1].end
  {
    var m := |ranges| - 1;
    assert ranges == ranges[..m] + [ranges[m]];
    OrderedIs(ranges[..m], ranges[m].start);
    if Covered(ranges[..m], i) {
      var r :| r in ranges[..m] && r.start <= i < r.end;
      assert r in ranges;
    }
  }

  /** Cutting from the back leaves exactly the lines outside all ranges, in order. */
  lemma {:induction false} CuttingLeavesTheRest(lines: seq<string>, ranges: seq<Range>)
    requires Ordered(ranges, |lines|)
    ensures Fits(ranges, |lines|)
    ensures DeleteAll(lines, ranges) == Outside(lines, |lines|, ranges)
  {
    OrderedFits(ranges, |lines|);
    if ranges == [] {
      OutsideKeeps(lines, 0, |lines|, ranges);
      assert lines[0..|lines|] == lines;
    } else {
      var m := |ranges| - 1;
      var r, fewer := ranges[m], ranges[..m];
      var head := lines[..r.start];
      forall i: nat | i < |lines|
        ensures Covered(ranges, i) <==> Covered(fewer, i) || r.start <= i < r.end
        ensures Covered(ranges, i) ==> i < r.end
        ensures Covered(fewer, i) ==> i < r.start
      {
        CoveredByOthers(ranges, |lines|, i);
        OrderedIs(fewer, r.start);
      }
      CuttingLeavesTheRest(head, fewer);
      DeleteLeavesTail(head, lines[r.end..], fewer);
      OutsidePrefix(head, r.start, lines, ranges, fewer);
      OutsideSkips(lines, r.start, r.end, ranges);
      OutsideKeeps(lines, r.end, |lines|, ranges);
    }
  }

  // ------------------------------------------------------------- reinserting

  ghost function Blocks(lines: seq<string>, ranges: seq<Range>): seq<seq<string>>
    requires Ordered(ranges, |lines|)
  {
    if ranges == [] then []
    else
      var r := ranges[|ranges| - 1];
      Blocks(lines[..r.start], ranges[..|ranges| - 1]) + [lines[r.start..r.end]]
  }

  /** Put blocks of lines back, front to back, each where its range began. */
  ghost function Reinserted(lines: seq<string>, ranges: seq<Range>, blocks: seq<seq<string>>): seq<string>
    requires |blocks| == |ranges|
  {
    if ranges == [] then lines
    else
      var m := |ranges| - 1;
      var before := Reinserted(lines, ranges[..m], blocks[..m]);
      var at := if ranges[m].start <= |before| then ranges[m].start else |before|;
      before[..at] + blocks[m] + before[at..]
  }

  lemma {:induction false} BlocksOfMore(lines: seq<string>, more: seq<string>, ranges: seq<Range>)
    requires Ordered(ranges, |lines|)
    ensures Ordered(ranges, |lines + more|)
    ensures Blocks(lines + more, ranges) == Blocks(lines, ranges)
    ensures |Blocks(lines, ranges)| == |ranges|
  {
    if ranges != [] {
      var m := |ranges| - 1;
      var r := ranges[m];
      assert (lines + more)[..r.start] == lines[..r.start];
      assert (lines + more)[r.start..r.end] == lines[r.start..r.end];
      BlocksOfMore(lines[..r.start], [], ranges[..m]);
    }
  }

  /** Nothing but the blocks was lost: putting them back restores the message. */
  lemma {:induction false} ReinsertingRestores(lines: seq<string>, ranges: seq<Range>)
    requires Ordered(ranges, |lines|)
    ensures Fits(ranges, |lines|) && |Blocks(lines, ranges)| == |ranges|
    ensures Reinserted(DeleteAll(lines, ranges), ranges, Blocks(lines, ranges)) == lines
  {
    OrderedFits(ranges, |lines|);
    BlocksOfMore(lines, [], ranges);
    if ranges != [] {
      var m := |ranges| - 1;
      var r := ranges[m];
      var head, tail := lines[..r.start], lines[r.end..];
      BlocksOfMore(head, tail, ranges[..m]);
      ReinsertingRestores(head + tail, ranges[..m]);
      assert Blocks(lines, ranges)[..m] == Blocks(head, ranges[..m]);
      assert (head + tail)[..r.start] + lines[r.start..r.end] + (head + tail)[r.start..] == lines;
    }
  }

  /** The ranges of calls that came to their end. */
  function Finished(ranges: seq<Range>): seq<Range> {
    if ranges == [] then []
    else
      var m := |ranges| - 1;
      if ranges[m].malformed then Finished(ranges[..m]) else Finished(ranges[..m]) + [ranges[m]]
  }

  lemma CallsOfLast(lines: seq<string>, ranges: seq<Range>)
    requires Fits(ranges, |lines|) && ranges != []
    ensures var m := |ranges| - 1; var r := ranges[m]; var earlier := CallTexts(lines[..r.start], ranges[..m]);
      if r.malformed then CallTexts(lines, ranges) == earlier && Finished(ranges) == Finished(ranges[..m])
      else CallTexts(lines, ranges) == [Unlines(lines[r.start..r.end])] + earlier
           && Finished(ranges) == Finished(ranges[..m]) + [r]
  {
  }

  lemma SameBlock(lines: seq<string>, n: nat, r: Range)
    requires r.start < r.end <= n <= |lines|
    ensures lines[..n][r.start..r.end] == lines[r.start..r.end]
  {
  }

  /**
   One call is collected for each range that is finished, and it reads exactly
   as the block of original lines there, last block first.
   */
  lemma {:induction false} CallsAreTheBlocks(lines: seq<string>, ranges: seq<Range>, i: nat)
    requires Fits(ranges, |lines|) && i < |Finished(ranges)|
    ensures |CallTexts(lines, ranges)| == |Finished(ranges)|
    ensures var r := Finished(ranges)[|Finished(ranges)| - 1 - i];
      r.start < r.end <= |lines| && CallTexts(lines, ranges)[i] == Unlines(lines[r.start..r.end])
    decreases |ranges|
  {
    var m := |ranges| - 1;
    var start, fewer := ranges[m].start, ranges[..m];
    CallsOfLast(lines, ranges);
    CallCount(lines[..start], fewer);
    if ranges[m].malformed {
      CallsAreTheBlocks(lines[..start], fewer, i);
      SameBlock(lines, start, Finished(fewer)[|Finished(fewer)| - 1 - i]);
    } else if i > 0 {
      CallsAreTheBlocks(lines[..start], fewer, i - 1);
      SameBlock(lines, start, Finished(fewer)[|Finished(fewer)| - i]);
    }
  }

  lemma {:induction false} CallCount(lines: seq<string>, ranges: seq<Range>)
    requires Fits(ranges, |lines|)
    ensures |CallTexts(lines, ranges)| == |Finished(ranges)|
    decreases |ranges|
  {
    if ranges != [] {
      CallCount(lines[..ranges[|ranges| - 1].start], ranges[..|ranges| - 1]);
    }
  }

  /** What a removal promises: exactly the rest is left, nothing but the ranges is lost, and the finished calls are kept. */
  ghost predicate CutCleanly(lines: seq<string>, ranges: seq<Range>)
    requires Ordered(ranges, |lines|)
  {
    && Fits(ranges, |lines|) && |Blocks(lines, ranges)| == |ranges|
    && DeleteAll(lines, ranges) == Outside(lines, |lines|, ranges)
    && Reinserted(DeleteAll(lines, ranges), ranges, Blocks(lines, ranges)) == lines
    && |CallTexts(lines, ranges)| == |Finished(ranges)|
    && forall i: nat :: i < |Finished(ranges)| ==> IsCall(lines, ranges, i)
  }

  ghost predicate IsCall(lines: seq<string>, ranges: seq<Range>, i: nat)
    requires Fits(ranges, |lines|) && |CallTexts(lines, ranges)| == |Finished(ranges)| && i < |Finished(ranges)|
  {
    var r := Finished(ranges)[|Finished(ranges)| - 1 - i];
    r.start < r.end <= |lines| && CallTexts(lines, ranges)[i] == Unlines(lines[r.start..r.end])
  }

  lemma OrderedCutsCleanly(lines: seq<string>, ranges: seq<Range>)
    requires Ordered(ranges, |lines|)
    ensures CutCleanly(lines, ranges)
  {
    CuttingLeavesTheRest(lines, ranges);
    ReinsertingRestores(lines, ranges);
    CallCount(lines, ranges);
    forall i: nat | i < |Finished(ranges)|
      ensures IsCall(lines, ranges, i)
    {
      CallsAreTheBlocks(lines, ranges, i);
    }
  }

  // ---------------------------------------------------------------- the scan

  /** What a line is to the scan. */
  datatype Mark = Start | End | Blank | Plain

  /** The open call, the line after a blank one seen while a call was open, and the calls found. */
  datatype Scan = Scan(start: Option<nat>, blank: Option<nat>, calls: seq<(nat, nat)>)

  function ScanMarks(marks: seq<Mark>, n: nat): Scan
    requires n <= |marks|
  {
    if n == 0 then Scan(None, None, [])
    else
      Scanned(ScanMarks(marks, n - 1), marks[n - 1], n - 1)
  }

  function Scanned(scan: Scan, mark: Mark, i: nat): Scan {
    match mark
    case Start => scan.(start := Some(i))
    case End => if scan.start.None? then scan else Scan(None, None, scan.calls + [(scan.start.value, i)])
    case Blank => if scan.start.None? then scan else scan.(blank := Some(i + 1))
    case Plain => scan
  }

  ghost predicate NoneBetween(marks: seq<Mark>, a: int, b: int, mark: Mark)
    requires b <= |marks|
  {
    forall i :: 0 <= i && a < i < b ==> marks[i] != mark
  }

  /** A call that began in line `s` and is still open before line `n`. */
  ghost predicate OpenCall(marks: seq<Mark>, s: nat, n: nat)
    requires n <= |marks|
  {
    s < n && marks[s] == Start && NoneBetween(marks, s, n, Start) && NoneBetween(marks, s, n, End)
  }

  lemma {:induction false} StartIsOpenCall(marks: seq<Mark>, n: nat, s: nat)
    requires n <= |marks|
    ensures ScanMarks(marks, n).start == Some(s) <==> OpenCall(marks, s, n)
  {
    if n > 0 {
      StartIsOpenCall(marks, n - 1, s);
      var scan := ScanMarks(marks, n - 1);
      if marks[n - 1] == Start && OpenCall(marks, s, n) {
        assert s == n - 1;
      }
      if OpenCall(marks, s, n) && s < n - 1 {
        assert OpenCall(marks, s, n - 1);
        assert marks[n - 1] != End && marks[n - 1] != Start;
      }
    }
  }

  /** A scan finds exactly the calls: a first line, then no other first line before the next last line. */
  lemma {:induction false} ScanFindsTheCalls(marks: seq<Mark>, n: nat, s: nat, k: nat)
    requires n <= |marks|
    ensures (s, k) in ScanMarks(marks, n).calls <==> k < n && marks[k] == End && OpenCall(marks, s, k)
  {
    if n > 0 {
      ScanFindsTheCalls(marks, n - 1, s, k);
      StartIsOpenCall(marks, n - 1, s);
    }
  }

  /** Calls come in order, the next one beginning after the last one's end, and an open call after all of them. */
  lemma {:induction false} ScanIsOrdered(marks: seq<Mark>, n: nat)
    requires n <= |marks|
    ensures var scan := ScanMarks(marks, n);
      && (forall i :: 0 <= i < |scan.calls| ==> scan.calls[i].0 < scan.calls[i].1 < n && marks[scan.calls[i].0] == Start)
      && (forall i :: 0 <= i < |scan.calls| - 1 ==> scan.calls[i].1 < scan.calls[i + 1].0)
      && (scan.start.Some? ==> scan.start.value < n && marks[scan.start.value] == Start)
      && (scan.start.Some? && scan.calls != [] ==> scan.calls[|scan.calls| - 1].1 < scan.start.value)
      && (scan.blank.Some? ==> scan.blank.value <= n)
  {
    if n > 0 {
      ScanIsOrdered(marks, n - 1);
    }
  }

  /** The ranges of calls `(first line, last line)`, each cut up to where `endOf` its last line. */
  ghost function RangesOf(calls: seq<(nat, nat)>, endOf: nat -> nat): (ranges: seq<Range>)
    ensures |ranges| == |calls|
  {
    if calls == [] then []
    else
      var m := |calls| - 1;
      RangesOf(calls[..m], endOf) + [Range(calls[m].0, endOf(calls[m].1), false)]
  }

  lemma RangesOfSnoc(calls: seq<(nat, nat)>, call: (nat, nat), endOf: nat -> nat)
    ensures RangesOf(calls + [call], endOf) == RangesOf(calls, endOf) + [Range(call.0, endOf(call.1), false)]
  {
    assert (calls + [call])[..|calls|] == calls;
  }

  /** Call `i` ends after it begins and before the next one does. */
  ghost predicate Apart(calls: seq<(nat, nat)>, endOf: nat -> nat, n: nat, i: nat)
    requires i < |calls|
  {
    calls[i].0 < endOf(calls[i].1) <= if i + 1 < |calls| then calls[i + 1].0 else n
  }

  lemma {:induction false} RangesOfAreOrdered(calls: seq<(nat, nat)>, endOf: nat -> nat, n: nat)
    requires forall i: nat :: i < |calls| ==> Apart(calls, endOf, n, i)
    ensures Ordered(RangesOf(calls, endOf), n)
  {
    if calls != [] {
      var m := |calls| - 1;
      var ranges := RangesOf(calls, endOf);
      assert ranges[..m] == RangesOf(calls[..m], endOf);
      assert Apart(calls, endOf, n, m);
      forall i: nat | i < m
        ensures Apart(calls[..m], endOf, calls[m].0, i)
      {
        assert Apart(calls, endOf, n, i);
      }
      RangesOfAreOrdered(calls[..m], endOf, calls[m].0);
    }
  }

  lemma {:induction false} RangesOfAreFinished(calls: seq<(nat, nat)>, endOf: nat -> nat)
    ensures forall r :: r in RangesOf(calls, endOf) ==> !r.malformed
  {
    if calls != [] {
      RangesOfAreFinished(calls[..|calls| - 1], endOf);
    }
  }

  function AsIndex(o: Option<nat>): int {
    if o.None? then -1 else o.value
  }

  // ------------------------------------------------------------------- Codex

  /** How a Codex screen words a report: "Called", the tool in the next line, and the reply that ends it. */
  datatype CodexWords = CodexWords(called: string, tool: string, thanks: string)

  const CODEX := CodexWords("\U{2022}Called", "Coder.coder_report_task", "{\"message\": \"Thanks for reporting!\"}")

  function WithoutSpaces(s: string): string {
    if s == "" then "" else (if s[0] == ' ' then "" else [s[0]]) + WithoutSpaces(s[1..])
  }

  predicate CodexStart(w: CodexWords, lines: seq<string>, i: nat)
    requires i < |lines|
  {
    && i + 1 < |lines|
    && WithoutSpaces(TrimSpace(lines[i])) == w.called
    && Contains(TrimSpace(lines[i + 1]), w.tool)
  }

  function CodexMark(w: CodexWords, lines: seq<string>, i: nat): Mark
    requires i < |lines|
  {
    if CodexStart(w, lines, i) then Start else if TrimSpace(lines[i]) == w.thanks then End else Plain
  }

  ghost function CodexMarks(w: CodexWords, lines: seq<string>): seq<Mark> {
    seq(|lines|, i requires 0 <= i < |lines| => CodexMark(w, lines, i))
  }

  /** The first line from `i` on that is not blank. */
  function PastBlanks(lines: seq<string>, i: nat): (r: nat)
    ensures i <= r && (i <= |lines| ==> r <= |lines|)
    decreases |lines| - i
  {
    if i < |lines| && TrimSpace(lines[i]) == "" then PastBlanks(lines, i + 1) else i
  }

  /** A finished call takes the blank lines behind it along. */
  ghost function CodexEnd(lines: seq<string>): nat -> nat {
    (k: nat) => PastBlanks(lines, k + 1)
  }

  ghost function CodexRanges(w: CodexWords, lines: seq<string>): seq<Range> {
    RangesOf(ScanMarks(CodexMarks(w, lines), |lines|).calls, CodexEnd(lines))
  }

  lemma {:induction false} BlanksAreBlank(lines: seq<string>, i: nat, k: nat)
    requires i <= k < PastBlanks(lines, i)
    ensures k < |lines| && TrimSpace(lines[k]) == ""
    decreases k - i
  {
    if i < k {
      BlanksAreBlank(lines, i + 1, k);
    }
  }

  /** A line cannot both begin and end a report. */
  lemma CodexWordsDiffer()
    ensures CODEX.called != "" && WithoutSpaces(CODEX.thanks) != CODEX.called
  {
    assert WithoutSpaces(CODEX.thanks)[0] == '{';
  }

  lemma CodexCallEndsBefore(w: CodexWords, lines: seq<string>, k: nat, s: nat)
    requires w.called != ""
    requires k < s < |lines| && CodexStart(w, lines, s)
    ensures PastBlanks(lines, k + 1) <= s
  {
    if s < PastBlanks(lines, k + 1) {
      BlanksAreBlank(lines, k + 1, s);
    }
  }

  lemma CodexCallsAreApart(w: CodexWords, lines: seq<string>, i: nat)
    requires w.called != ""
    requires i < |ScanMarks(CodexMarks(w, lines), |lines|).calls|
    ensures Apart(ScanMarks(CodexMarks(w, lines), |lines|).calls, CodexEnd(lines), |lines|, i)
  {
    var marks := CodexMarks(w, lines);
    var calls := ScanMarks(marks, |lines|).calls;
    ScanIsOrdered(marks, |lines|);
    if i + 1 < |calls| {
      assert marks[calls[i + 1].0] == CodexMark(w, lines, calls[i + 1].0);
      CodexCallEndsBefore(w, lines, calls[i].1, calls[i + 1].0);
    }
  }

  /** The ranges of a Codex message are always in bounds, non-empty, ordered and disjoint. */
  lemma CodexRangesAreOrdered(lines: seq<string>)
    ensures Ordered(CodexRanges(CODEX, lines), |lines|)
    ensures forall r :: r in CodexRanges(CODEX, lines) ==> !r.malformed
  {
    CodexWordsDiffer();
    CodexRangesOrdered(CODEX, lines);
  }

  lemma CodexRangesOrdered(w: CodexWords, lines: seq<string>)
    requires w.called != ""
    ensures Ordered(CodexRanges(w, lines), |lines|)
    ensures forall r :: r in CodexRanges(w, lines) ==> !r.malformed
  {
    var calls := ScanMarks(CodexMarks(w, lines), |lines|).calls;
    var endOf := CodexEnd(lines);
    forall i: nat | i < |calls|
      ensures Apart(calls, endOf, |lines|, i)
    {
      CodexCallsAreApart(w, lines, i);
    }
    RangesOfAreOrdered(calls, endOf, |lines|);
    RangesOfAreFinished(calls, endOf);
  }

  method SkipBlanks(lines: seq<string>, from: nat) returns (endIdx: nat)
    requires from <= |lines|
    ensures endIdx == PastBlanks(lines, from) <= |lines|
  {
    endIdx := from;
    while endIdx < |lines| && TrimSpace(lines[endIdx]) == ""
      invariant from <= endIdx <= |lines|
      invariant PastBlanks(lines, from) == PastBlanks(lines, endIdx)
    {
      endIdx := endIdx + 1;
    }
  }

  /** `marks` says of every line what it is; looked up line by line. */
  ghost predicate CodexReads(w: CodexWords, lines: seq<string>, marks: seq<Mark>) {
    |marks| == |lines| && forall i {:trigger CodexMark(w, lines, i)} :: 0 <= i < |lines| ==> marks[i] == CodexMark(w, lines, i)
  }

  method ReadCodexLine(w: CodexWords, lines: seq<string>, ghost marks: seq<Mark>, idx: nat)
    returns (starts: bool, ends: bool)
    requires WithoutSpaces(w.thanks) != w.called
    requires idx < |lines| && CodexReads(w, lines, marks)
    ensures starts <==> marks[idx] == Start
    ensures ends <==> marks[idx] == End
  {
    assert marks[idx] == CodexMark(w, lines, idx);
    var line := TrimSpace(lines[idx]);
    starts := false;
    if idx + 1 < |lines| {
      var nextLine := TrimSpace(lines[idx + 1]);
      starts := WithoutSpaces(line) == w.called && Contains(nextLine, w.tool);
    }
    ends := line == w.thanks;
  }

  method ScanCodexLines(w: CodexWords, lines: seq<string>, ghost marks: seq<Mark>) returns (ranges: seq<Range>)
    requires WithoutSpaces(w.thanks) != w.called
    requires CodexReads(w, lines, marks)
    ensures ranges == RangesOf(ScanMarks(marks, |lines|).calls, CodexEnd(lines))
  {
    var toolCallStartIdx := -1;
    ranges := [];
    var idx := 0;
    while idx < |lines|
      invariant 0 <= idx <= |lines|
      invariant toolCallStartIdx == AsIndex(ScanMarks(marks, idx).start)
      invariant ranges == RangesOf(ScanMarks(marks, idx).calls, CodexEnd(lines))
    {
      var starts, ends := ReadCodexLine(w, lines, marks, idx);
      if starts {
        toolCallStartIdx := idx;
      }
      if toolCallStartIdx != -1 && ends {
        var endIdx := SkipBlanks(lines, idx + 1);
        RangesOfSnoc(ScanMarks(marks, idx).calls, (toolCallStartIdx, idx), CodexEnd(lines));
        ranges := ranges + [Range(toolCallStartIdx, endIdx, false)];
        toolCallStartIdx := -1;
      }
      idx := idx + 1;
    }
  }

  method RemoveCodexCalls(w: CodexWords, msg: string) returns (text: string, calls: seq<string>)
    requires w.called != "" && WithoutSpaces(w.thanks) != w.called
    ensures Fits(CodexRanges(w, Lines(msg)), |Lines(msg)|)
    ensures text == TrimRight(Unlines(DeleteAll(Lines(msg), CodexRanges(w, Lines(msg)))), IsNewline)
    ensures calls == CallTexts(Lines(msg), CodexRanges(w, Lines(msg)))
  {
    var lines := Lines(msg);
    CodexRangesOrdered(w, lines);
    OrderedFits(CodexRanges(w, lines), |lines|);
    var toolCallIdxs := ScanCodexLines(w, lines, CodexMarks(w, lines));
    if |toolCallIdxs| == 0 {
      UnlinesOfLines(msg);
      return TrimRight(msg, IsNewline), [];
    }
    lines, calls := CutRanges(lines, toolCallIdxs);
    text := TrimRight(Unlines(lines), IsNewline);
  }

  /** removeCodexReportTaskToolCall. */
  method RemoveCodexReportTaskToolCall(msg: string) returns (text: string, calls: seq<string>)
    ensures Fits(CodexRanges(CODEX, Lines(msg)), |Lines(msg)|)
    ensures text == TrimRight(Unlines(DeleteAll(Lines(msg), CodexRanges(CODEX, Lines(msg)))), IsNewline)
    ensures calls == CallTexts(Lines(msg), CodexRanges(CODEX, Lines(msg)))
  {
    CodexWordsDiffer();
    text, calls := RemoveCodexCalls(CODEX, msg);
  }

  // ------------------------------------------------------------------ Claude

  /** How a Claude screen words a report: the tool it names, and the reply before the closing brace. */
  datatype ClaudeWords = ClaudeWords(tool: string, thanks: string)

  const CLAUDE := ClaudeWords("coder - coder_report_task (MCP)", "\"message\": \"Thanks for reporting!\"")

  function ClaudeMark(w: ClaudeWords, lines: seq<string>, i: nat): Mark
    requires i < |lines|
  {
    if i == 0 || i == |lines| - 1 then Plain
    else
      var line := Trim(TrimSpace(lines[i]), IsNewline);
      if Contains(line, w.tool) then Start
      else if line == w.thanks && TrimSpace(lines[i + 1]) == "}" && HasSuffix(TrimSpace(lines[i - 1]), "{") then End
      else if |line| == 0 then Blank
      else Plain
  }

  ghost function ClaudeMarks(w: ClaudeWords, lines: seq<string>): seq<Mark> {
    seq(|lines|, i requires 0 <= i < |lines| => ClaudeMark(w, lines, i))
  }

  ghost predicate ClaudeReads(w: ClaudeWords, lines: seq<string>, marks: seq<Mark>) {
    |marks| == |lines| && forall i {:trigger ClaudeMark(w, lines, i)} :: 0 <= i < |lines| ==> marks[i] == ClaudeMark(w, lines, i)
  }

  /** A finished call takes the line that closes it along. */
  ghost function ClaudeEnd(): nat -> nat {
    (k: nat) => k + 2
  }

  /** An unfinished call runs to the last blank line seen while a call was open, or to the end. */
  ghost function UnfinishedRange(scan: Scan, n: nat): seq<Range> {
    if scan.start.None? then []
    else [Range(scan.start.value, if scan.blank.Some? then scan.blank.value else n, true)]
  }

  ghost function ClaudeRangesOf(scan: Scan, n: nat): seq<Range> {
    RangesOf(scan.calls, ClaudeEnd()) + UnfinishedRange(scan, n)
  }

  ghost function ClaudeRanges(w: ClaudeWords, lines: seq<string>): seq<Range> {
    ClaudeRangesOf(ScanMarks(ClaudeMarks(w, lines), |lines|), |lines|)
  }

  /** A closing brace names no tool. */
  lemma ClaudeBraceBeginsNothing()
    ensures !Contains("}", CLAUDE.tool)
  {
    assert |CLAUDE.tool| > 1;
    assert !Contains("", CLAUDE.tool);
  }

  lemma BraceStays()
    ensures Trim("}", IsNewline) == "}"
  {
  }

  lemma CallEndsInBrace(w: ClaudeWords, lines: seq<string>, k: nat)
    requires k < |lines| && ClaudeMark(w, lines, k) == End
    ensures k + 1 < |lines| && TrimSpace(lines[k + 1]) == "}"
  {
  }

  lemma BraceBeginsNoCall(w: ClaudeWords, lines: seq<string>, i: nat)
    requires !Contains("}", w.tool) && i < |lines| && TrimSpace(lines[i]) == "}"
    ensures ClaudeMark(w, lines, i) != Start
  {
    BraceStays();
  }

  ghost predicate NoStartAfterEnd(marks: seq<Mark>) {
    forall k :: 0 <= k < |marks| && marks[k] == End ==> k + 1 < |marks| && marks[k + 1] != Start
  }

  /** The line behind a Claude call is its closing brace, so no call begins there. */
  lemma ClaudeMarkSpaced(w: ClaudeWords, lines: seq<string>, marks: seq<Mark>, k: nat)
    requires !Contains("}", w.tool)
    requires ClaudeReads(w, lines, marks) && k < |marks| && marks[k] == End
    ensures k + 1 < |marks| && marks[k + 1] != Start
  {
    assert marks[k] == ClaudeMark(w, lines, k);
    CallEndsInBrace(w, lines, k);
    BraceBeginsNoCall(w, lines, k + 1);
    assert marks[k + 1] == ClaudeMark(w, lines, k + 1);
  }

  lemma ClaudeMarksAreSpaced(w: ClaudeWords, lines: seq<string>, marks: seq<Mark>)
    requires !Contains("}", w.tool) && ClaudeReads(w, lines, marks)
    ensures NoStartAfterEnd(marks)
  {
    forall k | 0 <= k < |marks| && marks[k] == End
      ensures k + 1 < |marks| && marks[k + 1] != Start
    {
      ClaudeMarkSpaced(w, lines, marks, k);
    }
  }

  /** Where the finished calls end at the latest. */
  ghost function FinishedEnd(scan: Scan, n: nat): nat {
    if scan.start.Some? then scan.start.value else n
  }

  lemma SpacedCallsAreApart(marks: seq<Mark>, i: nat)
    requires NoStartAfterEnd(marks)
    requires i < |ScanMarks(marks, |marks|).calls|
    ensures var scan := ScanMarks(marks, |marks|); Apart(scan.calls, ClaudeEnd(), FinishedEnd(scan, |marks|), i)
  {
    var scan := ScanMarks(marks, |marks|);
    ScanIsOrdered(marks, |marks|);
    assert scan.calls[i] in scan.calls;
    ScanFindsTheCalls(marks, |marks|, scan.calls[i].0, scan.calls[i].1);
  }

  lemma FinishedAreOrdered(marks: seq<Mark>)
    requires NoStartAfterEnd(marks)
    ensures var scan := ScanMarks(marks, |marks|); Ordered(RangesOf(scan.calls, ClaudeEnd()), FinishedEnd(scan, |marks|))
  {
    var scan := ScanMarks(marks, |marks|);
    var n := FinishedEnd(scan, |marks|);
    forall i: nat | i < |scan.calls|
      ensures Apart(scan.calls, ClaudeEnd(), n, i)
    {
      SpacedCallsAreApart(marks, i);
    }
    RangesOfAreOrdered(scan.calls, ClaudeEnd(), n);
  }

  lemma ClaudeRangesOfScan(scan: Scan, n: nat)
    requires Ordered(RangesOf(scan.calls, ClaudeEnd()), FinishedEnd(scan, n))
    requires (scan.start.Some? ==> scan.start.value < n) && (scan.blank.Some? ==> scan.blank.value <= n)
    ensures Fits(ClaudeRangesOf(scan, n), n)
    ensures Ordered(ClaudeRangesOf(scan, n), n) <==>
      !(scan.start.Some? && scan.blank.Some? && scan.blank.value <= scan.start.value)
  {
    var finished, ranges := RangesOf(scan.calls, ClaudeEnd()), ClaudeRangesOf(scan, n);
    OrderedFits(finished, FinishedEnd(scan, n));
    if scan.start.Some? {
      assert ranges[..|ranges| - 1] == finished;
    } else {
      assert ranges == finished;
    }
  }

  lemma MarkedRanges(marks: seq<Mark>)
    requires NoStartAfterEnd(marks)
    ensures var ranges := ClaudeRangesOf(ScanMarks(marks, |marks|), |marks|);
      Fits(ranges, |marks|) && (Ordered(ranges, |marks|) <==> !BlankBeforeLastStart(marks))
  {
    ScanIsOrdered(marks, |marks|);
    FinishedAreOrdered(marks);
    StaleBlankIsRemembered(marks);
    ClaudeRangesOfScan(ScanMarks(marks, |marks|), |marks|);
  }

  lemma ClaudeRangesFit(w: ClaudeWords, lines: seq<string>)
    requires !Contains("}", w.tool)
    ensures Fits(ClaudeRanges(w, lines), |lines|)
    ensures Ordered(ClaudeRanges(w, lines), |lines|) <==> !BlankBeforeLastStart(ClaudeMarks(w, lines))
  {
    ClaudeMarksAreSpaced(w, lines, ClaudeMarks(w, lines));
    MarkedRanges(ClaudeMarks(w, lines));
  }

  /**
   Two calls begin, `p` then `s`, and nothing finishes either; a blank line
   `b` comes between them and none comes after the second.
   */
  ghost predicate BlankBeforeLastStart(marks: seq<Mark>) {
    exists p: nat, b: nat, s: nat :: StaleBlank(marks, p, b, s)
  }

  ghost predicate StaleBlank(marks: seq<Mark>, p: nat, b: nat, s: nat) {
    && p < b < s < |marks|
    && marks[p] == Start && marks[b] == Blank && marks[s] == Start
    && NoneBetween(marks, p, |marks|, End)
    && NoneBetween(marks, s, |marks|, Start) && NoneBetween(marks, s, |marks|, Blank)
  }

  /** What the scan remembers of blank lines: one seen since some call `p` that was never finished. */
  lemma {:induction false} BlankIsRemembered(marks: seq<Mark>, n: nat) returns (p: nat)
    requires n <= |marks| && ScanMarks(marks, n).blank.Some?
    ensures var b := ScanMarks(marks, n).blank.value;
      && p + 1 < b <= n && marks[p] == Start && marks[b - 1] == Blank && NoneBetween(marks, p, n, End)
  {
    var before := ScanMarks(marks, n - 1);
    if marks[n - 1] == Blank && before.start.Some? {
      p := before.start.value;
      StartIsOpenCall(marks, n - 1, p);
    } else {
      p := BlankIsRemembered(marks, n - 1);
      if marks[n - 1] == End {
        UnfinishedStaysOpen(marks, p, n - 1);
      }
    }
  }

  lemma {:induction false} UnfinishedStaysOpen(marks: seq<Mark>, p: nat, n: nat)
    requires p < n <= |marks| && marks[p] == Start && NoneBetween(marks, p, n, End)
    ensures ScanMarks(marks, n).start.Some?
  {
    if p < n - 1 {
      UnfinishedStaysOpen(marks, p, n - 1);
    }
  }

  lemma {:induction false} BlankIsNotForgotten(marks: seq<Mark>, p: nat, b: nat, n: nat)
    requires p < b < n <= |marks| && marks[p] == Start && marks[b] == Blank && NoneBetween(marks, p, n, End)
    ensures ScanMarks(marks, n).blank.Some? && ScanMarks(marks, n).blank.value > b
  {
    UnfinishedStaysOpen(marks, p, n - 1);
    if b < n - 1 {
      BlankIsNotForgotten(marks, p, b, n - 1);
    }
  }

  /** The last scan state has the blank line before the open call exactly for such messages. */
  lemma StaleBlankIsRemembered(marks: seq<Mark>)
    ensures var scan := ScanMarks(marks, |marks|);
      scan.start.Some? && scan.blank.Some? && scan.blank.value <= scan.start.value <==> BlankBeforeLastStart(marks)
  {
    var n := |marks|;
    var scan := ScanMarks(marks, n);
    if scan.start.Some? && scan.blank.Some? && scan.blank.value <= scan.start.value {
      var p := BlankIsRemembered(marks, n);
      var s := scan.start.value;
      StartIsOpenCall(marks, n, s);
      forall i | s < i < n
        ensures marks[i] != Blank
      {
        if marks[i] == Blank {
          BlankIsNotForgotten(marks, s, i, n);
        }
      }
      assert StaleBlank(marks, p, scan.blank.value - 1, s);
    }
    if p: nat, b: nat, s: nat :| StaleBlank(marks, p, b, s) {
      StartIsOpenCall(marks, n, s);
      BlankIsNotForgotten(marks, p, b, n);
      var q := BlankIsRemembered(marks, n);
      assert marks[scan.blank.value - 1] == Blank;
    }
  }

  /**
   The ranges of a Claude message are in bounds, non-empty, ordered and
   disjoint exactly when no blank line before the last, unfinished call was
   left over from an earlier unfinished one.  Cutting never leaves the text.
   */
  lemma ClaudeRangesAreOrdered(lines: seq<string>)
    ensures Fits(ClaudeRanges(CLAUDE, lines), |lines|)
    ensures Ordered(ClaudeRanges(CLAUDE, lines), |lines|) <==> !BlankBeforeLastStart(ClaudeMarks(CLAUDE, lines))
  {
    ClaudeBraceBeginsNothing();
    ClaudeRangesFit(CLAUDE, lines);
  }

  method ReadClaudeLine(w: ClaudeWords, lines: seq<string>, ghost marks: seq<Mark>, i: nat)
    returns (starts: bool, ends: bool, blank: bool)
    requires 1 <= i < |lines| - 1 && ClaudeReads(w, lines, marks)
    ensures starts <==> marks[i] == Start
    ensures !starts ==> (ends <==> marks[i] == End)
    ensures !starts && !ends ==> (blank <==> marks[i] == Blank)
  {
    assert marks[i] == ClaudeMark(w, lines, i);
    var prevLine := TrimSpace(lines[i - 1]);
    var line := Trim(TrimSpace(lines[i]), IsNewline);
    var nextLine := TrimSpace(lines[i + 1]);
    starts := Contains(line, w.tool);
    ends := line == w.thanks && nextLine == "}" && HasSuffix(prevLine, "{");
    blank := |line| == 0;
  }

  lemma EndLinesAreUnmarked(w: ClaudeWords, lines: seq<string>, marks: seq<Mark>)
    requires |lines| >= 2 && ClaudeReads(w, lines, marks)
    ensures marks[0] == Plain && marks[|lines| - 1] == Plain
  {
    assert marks[0] == ClaudeMark(w, lines, 0);
    assert marks[|lines| - 1] == ClaudeMark(w, lines, |lines| - 1);
  }

  method ScanClaudeLines(w: ClaudeWords, lines: seq<string>, ghost marks: seq<Mark>) returns (ranges: seq<Range>)
    requires |lines| >= 2 && ClaudeReads(w, lines, marks)
    ensures ranges == ClaudeRangesOf(ScanMarks(marks, |lines|), |lines|)
  {
    var toolCallStartIdx, newLineAfterToolCall := -1, -1;
    ranges := [];
    EndLinesAreUnmarked(w, lines, marks);
    var i := 1;
    while i < |lines| - 1
      invariant 1 <= i <= |lines| - 1
      invariant toolCallStartIdx == AsIndex(ScanMarks(marks, i).start)
      invariant newLineAfterToolCall == AsIndex(ScanMarks(marks, i).blank)
      invariant ranges == RangesOf(ScanMarks(marks, i).calls, ClaudeEnd())
    {
      var starts, ends, blank := ReadClaudeLine(w, lines, marks, i);
      if starts {
        toolCallStartIdx := i;
      } else if toolCallStartIdx != -1 {
        if ends {
          RangesOfSnoc(ScanMarks(marks, i).calls, (toolCallStartIdx, i), ClaudeEnd());
          var end := if |lines| < i + 2 then |lines| else i + 2;
          ranges := ranges + [Range(toolCallStartIdx, end, false)];
          toolCallStartIdx, newLineAfterToolCall := -1, -1;
        } else if blank {
          newLineAfterToolCall := i + 1;
        }
      }
      i := i + 1;
    }
    if toolCallStartIdx != -1 {
      if newLineAfterToolCall != -1 {
        ranges := ranges + [Range(toolCallStartIdx, newLineAfterToolCall, true)];
      } else {
        ranges := ranges + [Range(toolCallStartIdx, |lines|, true)];
      }
    }
  }

  method RemoveClaudeCalls(w: ClaudeWords, msg: string) returns (text: string, calls: seq<string>)
    requires !Contains("}", w.tool)
    ensures var lines := Lines("\n" + msg);
      && Fits(ClaudeRanges(w, lines), |lines|)
      && text == TrimLeft(Unlines(DeleteAll(lines, ClaudeRanges(w, lines))), IsNewline)
      && calls == CallTexts(lines, ClaudeRanges(w, lines))
  {
    var padded := "\n" + msg;
    var lines := Lines(padded);
    assert padded[0] == '\n';
    ClaudeRangesFit(w, lines);
    var toolCallIdxs := ScanClaudeLines(w, lines, ClaudeMarks(w, lines));
    if |toolCallIdxs| == 0 {
      UnlinesOfLines(padded);
      return TrimLeft(padded, IsNewline), [];
    }
    lines, calls := CutRanges(lines, toolCallIdxs);
    text := TrimLeft(Unlines(lines), IsNewline);
  }

  /** removeClaudeReportTaskToolCall. */
  method RemoveClaudeReportTaskToolCall(msg: string) returns (text: string, calls: seq<string>)
    ensures var lines := Lines("\n" + msg);
      && Fits(ClaudeRanges(CLAUDE, lines), |lines|)
      && text == TrimLeft(Unlines(DeleteAll(lines, ClaudeRanges(CLAUDE, lines))), IsNewline)
      && calls == CallTexts(lines, ClaudeRanges(CLAUDE, lines))
  {
    ClaudeBraceBeginsNothing();
    text, calls := RemoveClaudeCalls(CLAUDE, msg);
  }

  /**
   Ranges out of order are real: an unfinished call, a blank line, text, and
   another unfinished call.  Nothing is cut, and the text in between is
   written twice.
   */
  lemma LeftoverBlankLineRepeatsText()
    ensures var call := CLAUDE.tool; var lines := ["", call, "", "x", call, "y", "z"];
      && ClaudeRanges(CLAUDE, lines) == [Range(4, 3, true)]
      && Fits(ClaudeRanges(CLAUDE, lines), |lines|)
      && DeleteAll(lines, ClaudeRanges(CLAUDE, lines)) == ["", call, "", "x", "x", call, "y", "z"]
  {
    var call := CLAUDE.tool;
    ToolIsTrimmed();
    LeftoverBlank(CLAUDE, ["", call, "", "x", call, "y", "z"]);
    FourthLineTwice(["", call, "", "x", call, "y", "z"]);
  }

  lemma ToolIsTrimmed()
    ensures CLAUDE.tool != "x" && CLAUDE.tool != "y" && |CLAUDE.tool| > 1
    ensures Trim(TrimSpace(CLAUDE.tool), IsNewline) == CLAUDE.tool
  {
    var t := CLAUDE.tool;
    assert t[0] == 'c' && t[|t| - 1] == ')';
    assert TrimSpace(t) == t;
  }

  lemma ScanOfSeven(marks: seq<Mark>)
    requires marks == [Plain, Start, Blank, Plain, Start, Plain, Plain]
    ensures ScanMarks(marks, 7) == Scan(Some(4), Some(3), [])
  {
    assert ScanMarks(marks, 1) == Scan(None, None, []);
    assert ScanMarks(marks, 3) == Scan(Some(1), Some(3), []);
    assert ScanMarks(marks, 5) == Scan(Some(4), Some(3), []);
  }

  lemma LettersStay()
    ensures Trim(TrimSpace("x"), IsNewline) == "x" && Trim(TrimSpace("y"), IsNewline) == "y"
    ensures Trim(TrimSpace(""), IsNewline) == ""
  {
  }

  lemma ShortContainsNothing(s: string, sub: string)
    requires |s| <= 1 < |sub|
    ensures !Contains(s, sub)
  {
    assert |s| == 1 ==> s[1..] == "" && !Contains("", sub);
  }

  lemma LeftoverMarks(w: ClaudeWords, lines: seq<string>, marks: seq<Mark>, i: nat)
    requires |w.tool| > 1 && Trim(TrimSpace(w.tool), IsNewline) == w.tool && w.thanks !in {"x", "y", "", w.tool}
    requires lines == ["", w.tool, "", "x", w.tool, "y", "z"] && i < 7 && ClaudeReads(w, lines, marks)
    ensures marks[i] == if i == 1 || i == 4 then Start else if i == 2 then Blank else Plain
  {
    assert marks[i] == ClaudeMark(w, lines, i);
    LettersStay();
    ShortContainsNothing("", w.tool);
    ShortContainsNothing("x", w.tool);
    ShortContainsNothing("y", w.tool);
  }

  lemma CutOne(lines: seq<string>, r: Range, rest: seq<string>)
    requires r.start <= |lines| && r.end <= |lines| && r.malformed
    requires rest == lines[..r.start] + lines[r.end..]
    ensures Fits([r], |lines|) && DeleteAll(lines, [r]) == rest
  {
    CutLast(lines, [r]);
  }

  lemma LeftoverMarksAre(w: ClaudeWords, lines: seq<string>, marks: seq<Mark>)
    requires |w.tool| > 1 && Trim(TrimSpace(w.tool), IsNewline) == w.tool && w.thanks !in {"x", "y", "", w.tool}
    requires lines == ["", w.tool, "", "x", w.tool, "y", "z"] && ClaudeReads(w, lines, marks)
    ensures marks == [Plain, Start, Blank, Plain, Start, Plain, Plain]
  {
    forall i: nat | i < 7
      ensures marks[i] == if i == 1 || i == 4 then Start else if i == 2 then Blank else Plain
    {
      LeftoverMarks(w, lines, marks, i);
    }
  }

  lemma RangesFromMarks(marks: seq<Mark>)
    requires marks == [Plain, Start, Blank, Plain, Start, Plain, Plain]
    ensures ClaudeRangesOf(ScanMarks(marks, 7), 7) == [Range(4, 3, true)]
  {
    ScanOfSeven(marks);
  }

  lemma LeftoverBlank(w: ClaudeWords, lines: seq<string>)
    requires |w.tool| > 1 && Trim(TrimSpace(w.tool), IsNewline) == w.tool && w.thanks !in {"x", "y", "", w.tool}
    requires lines == ["", w.tool, "", "x", w.tool, "y", "z"]
    ensures ClaudeRanges(w, lines) == [Range(4, 3, true)]
  {
    LeftoverMarksAre(w, lines, ClaudeMarks(w, lines));
    RangesFromMarks(ClaudeMarks(w, lines));
  }

  lemma FourthLineTwice(lines: seq<string>)
    requires |lines| == 7
    ensures lines[..4] + lines[3..] == [lines[0], lines[1], lines[2], lines[3], lines[3], lines[4], lines[5], lines[6]]
    ensures Fits([Range(4, 3, true)], 7)
    ensures DeleteAll(lines, [Range(4, 3, true)]) == lines[..4] + lines[3..]
  {
    CutOne(lines, Range(4, 3, true), lines[..4] + lines[3..]);
  }

  // --------------------------------------------------------- whole messages

  /** A Codex message is always cut cleanly, and all its ranges are finished calls. */
  lemma CodexMessageIsCut(msg: string)
    ensures var lines := Lines(msg); var ranges := CodexRanges(CODEX, lines);
      Ordered(ranges, |lines|) && CutCleanly(lines, ranges) && Finished(ranges) == ranges
  {
    var lines := Lines(msg);
    CodexRangesAreOrdered(lines);
    OrderedCutsCleanly(lines, CodexRanges(CODEX, lines));
    AllFinished(CodexRanges(CODEX, lines));
  }

  lemma {:induction false} AllFinished(ranges: seq<Range>)
    requires forall r :: r in ranges ==> !r.malformed
    ensures Finished(ranges) == ranges
  {
    if ranges != [] {
      var m := |ranges| - 1;
      assert ranges[m] in ranges && forall r :: r in ranges[..m] ==> r in ranges;
      AllFinished(ranges[..m]);
      assert ranges == ranges[..m] + [ranges[m]];
    }
  }

  /**
   So is a Claude message, its last report finished or not, unless a blank line
   was left over from an earlier unfinished one; the calls kept are all but an
   unfinished last.
   */
  lemma ClaudeMessageIsCut(msg: string)
    requires !BlankBeforeLastStart(ClaudeMarks(CLAUDE, Lines("\n" + msg)))
    ensures var lines := Lines("\n" + msg); var ranges := ClaudeRanges(CLAUDE, lines);
      && Ordered(ranges, |lines|) && CutCleanly(lines, ranges)
      && Finished(ranges) == RangesOf(ScanMarks(ClaudeMarks(CLAUDE, lines), |lines|).calls, ClaudeEnd())
  {
    var lines := Lines("\n" + msg);
    ClaudeRangesAreOrdered(lines);
    OrderedCutsCleanly(lines, ClaudeRanges(CLAUDE, lines));
    FinishedOfScan(ScanMarks(ClaudeMarks(CLAUDE, lines), |lines|), |lines|);
  }

  lemma FinishedOfScan(scan: Scan, n: nat)
    ensures Finished(ClaudeRangesOf(scan, n)) == RangesOf(scan.calls, ClaudeEnd())
  {
    var finished, ranges := RangesOf(scan.calls, ClaudeEnd()), ClaudeRangesOf(scan, n);
    RangesOfAreFinished(scan.calls, ClaudeEnd());
    AllFinished(finished);
    if scan.start.Some? {
      assert ranges[..|ranges| - 1] == finished;
    } else {
      assert ranges == finished;
    }
  }

  // ---------------------------------------------------------------- dispatch

  /** The text a message is left with: only two agents write reports into their messages. */
  ghost function WithoutReports(agentType: AgentType, message: string): string {
    match agentType
    case Claude =>
      var lines := Lines("\n" + message);
      ClaudeRangesAreOrdered(lines);
      TrimLeft(Unlines(DeleteAll(lines, ClaudeRanges(CLAUDE, lines))), IsNewline)
    case Codex =>
      var lines := Lines(message);
      CodexRangesFit(lines);
      TrimRight(Unlines(DeleteAll(lines, CodexRanges(CODEX, lines))), IsNewline)
    case _ => message
  }

  lemma CodexRangesFit(lines: seq<string>)
    ensures Fits(CodexRanges(CODEX, lines), |lines|)
  {
    CodexRangesAreOrdered(lines);
    OrderedFits(CodexRanges(CODEX, lines), |lines|);
  }

  method FormatToolCall(agentType: AgentType, message: string) returns (text: string, calls: seq<string>)
    ensures text == WithoutReports(agentType, message)
    ensures agentType.Claude? ==> var lines := Lines("\n" + message); var ranges := ClaudeRanges(CLAUDE, lines);
      Fits(ranges, |lines|) && calls == CallTexts(lines, ranges)
    ensures agentType.Codex? ==> var lines := Lines(message); var ranges := CodexRanges(CODEX, lines);
      Fits(ranges, |lines|) && calls == CallTexts(lines, ranges)
    ensures !agentType.Claude? && !agentType.Codex? ==> calls == []
  {
    match agentType {
      case Claude => text, calls := RemoveClaudeReportTaskToolCall(message);
      case Codex => text, calls := RemoveCodexReportTaskToolCall(message);
      case _ => text, calls := message, [];
    }
  }

  // ---------------------------------------------------- what is left alone

  ghost predicate NoFinishedCall(marks: seq<Mark>) {
    forall s: nat, k: nat :: k < |marks| && marks[k] == End ==> !OpenCall(marks, s, k)
  }

  lemma CallsAreFinished(marks: seq<Mark>)
    ensures ScanMarks(marks, |marks|).calls == [] <==> NoFinishedCall(marks)
  {
    var calls := ScanMarks(marks, |marks|).calls;
    if calls != [] {
      assert calls[0] in calls;
      ScanFindsTheCalls(marks, |marks|, calls[0].0, calls[0].1);
    }
    forall s: nat, k: nat | k < |marks| && marks[k] == End && OpenCall(marks, s, k)
      ensures (s, k) in calls
    {
      ScanFindsTheCalls(marks, |marks|, s, k);
    }
  }

  lemma OrderedMore(ranges: seq<Range>, n: nat, more: nat)
    requires Ordered(ranges, n) && n <= more
    ensures Ordered(ranges, more)
  {
  }

  /** Cutting a range leaves fewer lines, and the first one if all ranges begin behind it. */
  lemma {:induction false} CuttingLeavesFewer(lines: seq<string>, ranges: seq<Range>)
    requires Ordered(ranges, |lines|) && Fits(ranges, |lines|) && AreLines(lines)
    ensures var left := DeleteAll(lines, ranges);
      && AreLines(left) && |left| <= |lines| && (ranges != [] ==> |left| < |lines|)
      && (lines != [] && (ranges == [] || ranges[0].start > 0) ==> left != [] && left[0] == lines[0])
    decreases |ranges|
  {
    if ranges != [] {
      var m := |ranges| - 1;
      var r, fewer := ranges[m], ranges[..m];
      var rest := lines[..r.start] + lines[r.end..];
      OrderedMore(fewer, r.start, |rest|);
      OrderedFits(fewer, |rest|);
      if m > 0 {
        OrderedIs(ranges, |lines|);
      }
      CuttingLeavesFewer(rest, fewer);
    }
  }

  lemma LinesOfParts(head: string, tail: string)
    ensures |Lines(head + tail)| == |Lines(head)| + |Lines(tail)| - 1
  {
    SplitConcat(head, tail, '\n');
  }

  lemma LinesOfCut(left: seq<string>)
    requires AreLines(left)
    ensures |Lines(Unlines(left))| == if left == [] then 1 else |left|
  {
    LinesOfUnlines(left);
    assert Lines("") == [""];
  }

  lemma TrimmingAddsNoLines(text: string)
    ensures |Lines(TrimRight(text, IsNewline))| <= |Lines(text)|
    ensures |Lines(TrimLeft(text, IsNewline))| <= |Lines(text)|
  {
    var i, j := FirstUncut(text, 0, IsNewline), EndUncut(text, |text|, IsNewline);
    assert text == text[..i] + text[i..] && text == text[..j] + text[j..];
    LinesOfParts(text[..i], text[i..]);
    LinesOfParts(text[..j], text[j..]);
  }

  lemma CodexNeedsTwoLines(w: CodexWords, lines: seq<string>)
    requires ScanMarks(CodexMarks(w, lines), |lines|).calls != []
    ensures |lines| >= 2
  {
    var marks := CodexMarks(w, lines);
    ScanIsOrdered(marks, |lines|);
    var s := ScanMarks(marks, |lines|).calls[0].0;
    assert marks[s] == CodexMark(w, lines, s);
  }

  /** A Codex message with a finished report loses lines. */
  lemma CodexReportIsCut(message: string)
    requires !NoFinishedCall(CodexMarks(CODEX, Lines(message)))
    ensures |Lines(WithoutReports(Codex, message))| < |Lines(message)|
  {
    var lines := Lines(message);
    var ranges := CodexRanges(CODEX, lines);
    CallsAreFinished(CodexMarks(CODEX, lines));
    CodexNeedsTwoLines(CODEX, lines);
    CodexRangesAreOrdered(lines);
    OrderedFits(ranges, |lines|);
    UnlinesOfLines(message);
    CuttingLeavesFewer(lines, ranges);
    LinesOfCut(DeleteAll(lines, ranges));
    TrimmingAddsNoLines(Unlines(DeleteAll(lines, ranges)));
  }

  /** A Codex message with no finished report loses only its newlines at the end. */
  lemma UnreportedTextStays(message: string)
    requires NoFinishedCall(CodexMarks(CODEX, Lines(message)))
    ensures WithoutReports(Codex, message) == TrimRight(message, IsNewline)
  {
    CallsAreFinished(CodexMarks(CODEX, Lines(message)));
    UnlinesOfLines(message);
  }

  /** So it is left alone if and only if it holds no finished report and no newline at its end. */
  lemma CodexLeavesAlone(message: string)
    ensures WithoutReports(Codex, message) == message
      <==> NoFinishedCall(CodexMarks(CODEX, Lines(message))) && !HasSuffix(message, "\n")
  {
    if NoFinishedCall(CodexMarks(CODEX, Lines(message))) {
      UnreportedTextStays(message);
      TrimRightStays(message);
    } else {
      CodexReportIsCut(message);
    }
  }

  lemma TrimRightStays(text: string)
    ensures TrimRight(text, IsNewline) == text <==> !HasSuffix(text, "\n")
  {
    assert HasSuffix(text, "\n") <==> text != "" && text[|text| - 1] == '\n';
    assert text[..|text|] == text;
    if text != "" && TrimRight(text, IsNewline) == text {
      assert EndUncut(text, |text|, IsNewline) == |text|;
    }
  }

  lemma TrimLeftStays(text: string)
    ensures TrimLeft(text, IsNewline) == text <==> !HasPrefix(text, "\n")
  {
    assert HasPrefix(text, "\n") <==> text != "" && text[0] == '\n';
    assert text[0..] == text;
    if text != "" && TrimLeft(text, IsNewline) == text {
      assert FirstUncut(text, 0, IsNewline) == 0;
    }
  }

  /** The lines of a Claude message as they are scanned: an empty one first. */
  lemma LinesBehindNewline(text: string)
    ensures Lines("\n" + text) == [""] + Lines(text)
    ensures TrimLeft("\n" + text, IsNewline) == TrimLeft(text, IsNewline)
  {
    SplitSeparated("", text, '\n');
    assert "" + ['\n'] + text == "\n" + text;
    CutBefore(text, 0, IsNewline);
    var i := FirstUncut(text, 0, IsNewline);
    FirstUncutIs("\n" + text, 0, i + 1, IsNewline);
  }

  ghost predicate NoCallBegun(marks: seq<Mark>) {
    NoFinishedCall(marks) && forall s: nat :: s < |marks| ==> !OpenCall(marks, s, |marks|)
  }

  lemma CallsAreBegun(marks: seq<Mark>)
    ensures ClaudeRangesOf(ScanMarks(marks, |marks|), |marks|) == [] <==> NoCallBegun(marks)
  {
    var scan := ScanMarks(marks, |marks|);
    CallsAreFinished(marks);
    forall s: nat | s < |marks|
      ensures scan.start == Some(s) <==> OpenCall(marks, s, |marks|)
    {
      StartIsOpenCall(marks, |marks|, s);
    }
    ScanIsOrdered(marks, |marks|);
  }

  /** No Claude call begins on the first line or the last. */
  lemma ClaudeBeginsBehindFirst(w: ClaudeWords, lines: seq<string>)
    requires ClaudeRanges(w, lines) != []
    ensures |lines| >= 3 && ClaudeRanges(w, lines)[0].start > 0
  {
    var marks := ClaudeMarks(w, lines);
    var scan := ScanMarks(marks, |lines|);
    ScanIsOrdered(marks, |lines|);
    if scan.calls != [] {
      FirstRange(scan.calls, ClaudeEnd());
      assert marks[scan.calls[0].0] == ClaudeMark(w, lines, scan.calls[0].0);
    } else {
      assert marks[scan.start.value] == ClaudeMark(w, lines, scan.start.value);
    }
  }

  lemma {:induction false} FirstRange(calls: seq<(nat, nat)>, endOf: nat -> nat)
    requires calls != []
    ensures RangesOf(calls, endOf)[0].start == calls[0].0
  {
    if |calls| > 1 {
      FirstRange(calls[..|calls| - 1], endOf);
    }
  }

  /** A text that keeps its empty first line loses it to trimming. */
  lemma TrimmingTakesFirst(left: seq<string>)
    requires AreLines(left) && left != [] && left[0] == ""
    ensures |Lines(TrimLeft(Unlines(left), IsNewline))| <= if |left| == 1 then 1 else |left| - 1
  {
    if |left| == 1 {
      LinesOfCut(left);
      TrimmingAddsNoLines(Unlines(left));
    } else {
      var rest := left[1..];
      assert Unlines(left) == "\n" + Unlines(rest);
      LinesBehindNewline(Unlines(rest));
      LinesOfCut(rest);
      TrimmingAddsNoLines(Unlines(rest));
    }
  }

  lemma ClaudeReportIsCut(message: string)
    requires var marks := ClaudeMarks(CLAUDE, Lines("\n" + message)); !BlankBeforeLastStart(marks) && !NoCallBegun(marks)
    ensures |Lines(WithoutReports(Claude, message))| < |Lines(message)|
  {
    var lines := Lines("\n" + message);
    var ranges := ClaudeRanges(CLAUDE, lines);
    CallsAreBegun(ClaudeMarks(CLAUDE, lines));
    ClaudeRangesAreOrdered(lines);
    ClaudeBeginsBehindFirst(CLAUDE, lines);
    LinesBehindNewline(message);
    UnlinesOfLines("\n" + message);
    CuttingLeavesFewer(lines, ranges);
    TrimmingTakesFirst(DeleteAll(lines, ranges));
  }

  /**
   And a Claude message if and only if no report begins in it, finished or not,
   and no newline stands at its start; messages with a blank line left over
   from an unfinished report apart.
   */
  lemma ClaudeLeavesAlone(message: string)
    requires !BlankBeforeLastStart(ClaudeMarks(CLAUDE, Lines("\n" + message)))
    ensures WithoutReports(Claude, message) == message
      <==> NoCallBegun(ClaudeMarks(CLAUDE, Lines("\n" + message))) && !HasPrefix(message, "\n")
  {
    var lines := Lines("\n" + message);
    if NoCallBegun(ClaudeMarks(CLAUDE, lines)) {
      CallsAreBegun(ClaudeMarks(CLAUDE, lines));
      UnlinesOfLines("\n" + message);
      LinesBehindNewline(message);
      TrimLeftStays(message);
    } else {
      ClaudeReportIsCut(message);
    }
  }
}
