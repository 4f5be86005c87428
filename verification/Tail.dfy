/**
 lib/transcript/tail.go: reading the complete lines appended to a file since
 the previous read.
 */
module Tail {
  import opened Text

  newtype Byte = b: int | 0 <= b < 256

  type Line = seq<Byte>

  const NEWLINE: Byte := 10
  const MAX_LINE_SIZE: nat := 32 * 1024 * 1024

  predicate IsReturn(b: Byte) {
    b == 13
  }

  // ------------------------------------------------------------ the reference

  /** The lines a raw line between newlines yields: none if over-long, or empty once its returns are cut. */
  function Kept(raw: Line): seq<Line> {
    var line := TrimRight(raw, IsReturn);
    if |raw| > MAX_LINE_SIZE || line == [] then [] else [line]
  }

  /** The complete lines of a stretch of bytes, and what follows its last newline. */
  function CompleteLines(bytes: seq<Byte>): seq<Line> {
    var parts := Split(bytes, NEWLINE);
    FlatMap(Kept, parts[..|parts| - 1])
  }

  function Rest(bytes: seq<Byte>): Line {
    var parts := Split(bytes, NEWLINE);
    parts[|parts| - 1]
  }

  /** What the tailer remembers of the line it is in the middle of. */
  datatype Partial = Partial(carry: seq<Byte>, skipping: bool)

  function PartialOf(bytes: seq<Byte>): Partial {
    if |Rest(bytes)| > MAX_LINE_SIZE then Partial([], true) else Partial(Rest(bytes), false)
  }

  /** How more bytes of a line, without their newline, change it. */
  function Absorb(p: Partial, body: seq<Byte>, complete: bool): Partial {
    if complete then Partial([], false)
    else if p.skipping || |p.carry| + |body| > MAX_LINE_SIZE then Partial([], true)
    else Partial(p.carry + body, false)
  }

  function Yields(p: Partial, body: seq<Byte>, complete: bool): seq<Line> {
    if complete && !p.skipping then Kept(p.carry + body) else []
  }

  // ------------------------------------------------------------------- reading

  /**
   What opening and reading the file gives.  A read may fail part of the way,
   leaving the last `missed` bytes of the content undelivered.
   */
  datatype FileView =
    | Missing
    | OpenFailed
    | StatFailed
    | SeekFailed(size: nat)
    | Readable(content: seq<Byte>, failed: bool, missed: nat)

  /** Where a read that starts at `from` ends. */
  function EndOf(file: FileView, from: nat): (end: nat)
    requires file.Readable? && from <= |file.content|
    ensures from <= end <= |file.content|
    ensures !file.failed ==> end == |file.content|
  {
    var n := |file.content|;
    if !file.failed then n
    else if from + file.missed <= n then n - file.missed
    else from
  }

  /** A file shorter than what was read of it has been replaced: reading starts over. */
  predicate Resets(consumed: seq<Byte>, file: FileView) {
    (file.Readable? && |file.content| < |consumed|) || (file.SeekFailed? && file.size < |consumed|)
  }

  function Remaining(consumed: seq<Byte>, file: FileView): seq<Byte> {
    if Resets(consumed, file) then [] else consumed
  }

  /** The bytes consumed after one more call. */
  function ReadStep(consumed: seq<Byte>, file: FileView): seq<Byte> {
    var start := Remaining(consumed, file);
    if file.Readable? then start + file.content[|start|..EndOf(file, |start|)] else start
  }

  /** The lines one more call returns: those completed since. */
  function NewLines(consumed: seq<Byte>, file: FileView): seq<Line> {
    var before, after := CompleteLines(Remaining(consumed, file)), CompleteLines(ReadStep(consumed, file));
    if |before| <= |after| then after[|before|..] else []
  }

  class Tailer {
    const path: string
    var offset: nat
    var carry: seq<Byte>
    var skipping: bool

    ghost var consumed: seq<Byte>      // the bytes read since the file was last found shrunk
    ghost var delivered: seq<Line>     // the lines returned since then

    /** The fields stand for the bytes consumed, and the lines returned are theirs. */
    ghost predicate Valid()
      reads this
    {
      && offset == |consumed|
      && Partial(carry, skipping) == PartialOf(consumed)
      && delivered == CompleteLines(consumed)
    }

    constructor (path: string)
      ensures Valid() && this.path == path
      ensures consumed == [] && delivered == []
    {
      this.path := path;
      offset, carry, skipping := 0, [], false;
      consumed, delivered := [], [];
    }

    method Reset()
      modifies this
      ensures Valid() && consumed == [] && delivered == []
    {
      offset, carry, skipping := 0, [], false;
      consumed, delivered := [], [];
    }

    /** The tests of the loop, on a chunk already stripped of its newline. */
    method AbsorbChunk(body: seq<Byte>, complete: bool) returns (lines: seq<Line>)
      requires skipping ==> carry == []
      modifies this`carry, this`skipping
      ensures Partial(carry, skipping) == Absorb(old(Partial(carry, skipping)), body, complete)
      ensures lines == Yields(old(Partial(carry, skipping)), body, complete)
    {
      lines := [];
      if skipping {
        if complete {
          skipping := false;
        }
      } else if |carry| + |body| > MAX_LINE_SIZE {
        carry := [];
        if !complete {
          skipping := true;
        }
      } else if complete {
        var line := body;
        if |carry| > 0 {
          line := carry + body;
          carry := [];
        }
        assert line == old(carry) + body;
        line := TrimRight(line, IsReturn);
        if |line| > 0 {
          lines := lines + [line];
        }
      } else if |body| > 0 {
        carry := carry + body;
      }
    }

    /** One pass of the loop: a chunk that ends in its only newline, or has none. */
    method TakeChunk(chunk: seq<Byte>) returns (lines: seq<Line>)
      requires Valid() && NEWLINE !in Stripped(chunk)
      modifies this
      ensures Valid() && consumed == old(consumed) + chunk && delivered == old(delivered) + lines
    {
      offset := offset + |chunk|;
      var complete := |chunk| > 0 && chunk[|chunk| - 1] == NEWLINE;
      AbsorbSound(consumed, Stripped(chunk), complete);
      assert chunk == Stripped(chunk) + if complete then [NEWLINE] else [];
      lines := AbsorbChunk(Stripped(chunk), complete);
      consumed := consumed + chunk;
      delivered := delivered + lines;
    }

    /** The loop: chunks until one comes without a newline. */
    method ReadOn(content: seq<Byte>) returns (lines: seq<Line>)
      requires Valid() && offset <= |content|
      modifies this
      ensures Valid() && offset == |content|
      ensures consumed == old(consumed) + content[old(offset)..] && delivered == old(delivered) + lines
    {
      lines := [];
      ghost var start := offset;
      var reading := true;
      while reading
        invariant Valid() && start <= offset <= |content|
        invariant consumed == old(consumed) + content[start..offset]
        invariant delivered == old(delivered) + lines
        invariant !reading ==> offset == |content|
        decreases reading, |content| - offset
      {
        var chunk, found := ReadBytes(content, offset);
        ReadFurther(old(consumed), content, start, offset, chunk);
        var more := TakeChunk(chunk);
        AppendAssoc(old(delivered), lines, more);
        lines := lines + more;
        reading := found;
      }
    }

    /** All complete lines appended since the previous call. */
    method Drain(file: FileView) returns (lines: seq<Line>, failed: bool)
      requires Valid()
      modifies this
      ensures Valid() && consumed == ReadStep(old(consumed), file)
      ensures lines == NewLines(old(consumed), file)
      ensures failed == !(file.Missing? || (file.Readable? && !file.failed))
      ensures |carry| <= MAX_LINE_SIZE
    {
      if file.Missing? {
        return [], false;
      }
      if file.OpenFailed? || file.StatFailed? {
        return [], true;
      }
      var size := if file.SeekFailed? then file.size else |file.content|;
      if size < offset {
        Reset();
      }
      if file.SeekFailed? {
        return [], true;
      }
      ghost var start := offset;
      var end := EndOf(file, offset);
      lines := ReadOn(file.content[..end]);
      assert file.content[..end][start..] == file.content[start..end];
      failed := file.failed;
    }
  }

  /** A chunk without the newline it may end in. */
  function Stripped(chunk: seq<Byte>): seq<Byte> {
    if |chunk| > 0 && chunk[|chunk| - 1] == NEWLINE then chunk[..|chunk| - 1] else chunk
  }

  /** bufio's ReadBytes('\n'): up to and including the next newline, or to the end. */
  method ReadBytes(content: seq<Byte>, from: nat) returns (chunk: seq<Byte>, found: bool)
    requires from <= |content|
    ensures from + |chunk| <= |content| && chunk == content[from..from + |chunk|]
    ensures found == (|chunk| > 0 && chunk[|chunk| - 1] == NEWLINE)
    ensures !found ==> from + |chunk| == |content|
    ensures NEWLINE !in Stripped(chunk)
  {
    var i := from;
    while i < |content|
      invariant from <= i <= |content|
      invariant NEWLINE !in content[from..i]
    {
      if content[i] == NEWLINE {
        chunk := content[from..i + 1];
        assert chunk[..|chunk| - 1] == content[from..i];
        return chunk, true;
      }
      i := i + 1;
    }
    chunk := content[from..i];
    found := false;
  }

  lemma ReadFurther(before: seq<Byte>, content: seq<Byte>, start: nat, offset: nat, chunk: seq<Byte>)
    requires start <= offset <= offset + |chunk| <= |content| && chunk == content[offset..offset + |chunk|]
    ensures before + content[start..offset] + chunk == before + content[start..offset + |chunk|]
  {
    assert content[start..offset] + chunk == content[start..offset + |chunk|];
  }

  /** Bytes without a newline lengthen the line being read. */
  lemma LineGoesOn(bytes: seq<Byte>, body: seq<Byte>)
    requires NEWLINE !in body
    ensures CompleteLines(bytes + body) == CompleteLines(bytes)
    ensures Rest(bytes + body) == Rest(bytes) + body
  {
    SplitClean(body, NEWLINE);
    SplitConcat(bytes, body, NEWLINE);
    var parts := Split(bytes, NEWLINE);
    assert Split(bytes + body, NEWLINE)[..|parts| - 1] == parts[..|parts| - 1];
  }

  /** A newline completes it. */
  lemma LineEnds(bytes: seq<Byte>, body: seq<Byte>)
    requires NEWLINE !in body
    ensures CompleteLines(bytes + (body + [NEWLINE])) == CompleteLines(bytes) + Kept(Rest(bytes) + body)
    ensures Rest(bytes + (body + [NEWLINE])) == []
  {
    LineGoesOn(bytes, body);
    SplitSeparated(bytes + body, [], NEWLINE);
    assert bytes + body + [NEWLINE] + [] == bytes + (body + [NEWLINE]);
    var parts := Split(bytes + body, NEWLINE);
    assert Split(bytes + (body + [NEWLINE]), NEWLINE) == parts + [[]];
    assert (parts + [[]])[..|parts|] == parts;
    var n := |parts| - 1;
    assert parts == parts[..n] + [parts[n]];
    FlatMapSnoc(Kept, parts[..n], parts[n]);
  }

  /** The tailer's bookkeeping loses nothing the reference reading knows. */
  lemma AbsorbSound(bytes: seq<Byte>, body: seq<Byte>, complete: bool)
    requires NEWLINE !in body
    ensures var all := bytes + (body + if complete then [NEWLINE] else []);
            && PartialOf(all) == Absorb(PartialOf(bytes), body, complete)
            && CompleteLines(all) == CompleteLines(bytes) + Yields(PartialOf(bytes), body, complete)
  {
    if complete {
      LineEnds(bytes, body);
    } else {
      LineGoesOn(bytes, body);
      assert body + [] == body;
    }
  }

  // ------------------------------------------------------------ over many calls

  /** The bytes consumed after a row of calls, from a new tailer. */
  function ReadSoFar(views: seq<FileView>): seq<Byte> {
    if views == [] then [] else ReadStep(ReadSoFar(views[..|views| - 1]), views[|views| - 1])
  }

  /** All lines a row of calls returns. */
  function LinesSoFar(views: seq<FileView>): seq<Line> {
    if views == [] then []
    else LinesSoFar(views[..|views| - 1]) + NewLines(ReadSoFar(views[..|views| - 1]), views[|views| - 1])
  }

  /** What a call read is the file's own beginning exactly when the part read before still stands in it. */
  lemma ReadsTheFile(consumed: seq<Byte>, file: FileView)
    requires file.Readable?
    ensures ReadStep(consumed, file) == file.content[..EndOf(file, |Remaining(consumed, file)|)]
            <==> Resets(consumed, file) || consumed <= file.content
  {
    if !Resets(consumed, file) {
      var end := EndOf(file, |consumed|);
      assert ReadStep(consumed, file)[..|consumed|] == consumed;
      assert file.content[..end][..|consumed|] == file.content[..|consumed|];
      if consumed <= file.content {
        assert file.content[..end] == file.content[..|consumed|] + file.content[|consumed|..end];
      }
    }
  }

  lemma OneLine(body: Line)
    requires NEWLINE !in body && 0 < |body| <= MAX_LINE_SIZE && !IsReturn(body[|body| - 1])
    ensures CompleteLines(body) == [] && CompleteLines(body + [NEWLINE]) == [body]
  {
    SplitClean(body, NEWLINE);
    SplitSeparated(body, [], NEWLINE);
    assert body + [NEWLINE] + [] == body + [NEWLINE];
    assert Split<Byte>([], NEWLINE) == [[]];
    assert ([body] + [[]])[..1] == [body];
    assert body[..|body|] == body;
    assert FlatMap(Kept, [body]) == FlatMap(Kept, []) + Kept(body);
  }

  lemma OneRead(bytes: seq<Byte>)
    ensures var views := [Readable(bytes, false, 0)];
      ReadSoFar(views) == bytes && LinesSoFar(views) == CompleteLines(bytes)
  {
    var file := Readable(bytes, false, 0);
    ReadOneMore([], file);
    NoLinesInNothing();
    assert [] + [file] == [file] && ReadStep([], file) == bytes;
  }

  lemma TwoReads(first: seq<Byte>, second: seq<Byte>)
    requires |first| <= |second|
    ensures LinesSoFar([Readable(first, false, 0), Readable(second, false, 0)]) == CompleteLines(first + second[|first|..])
  {
    var before, after := Readable(first, false, 0), Readable(second, false, 0);
    OneRead(first);
    ReadOneMore([before], after);
    NewLinesComplete(first, after);
    assert [before] + [after] == [before, after];
    assert second[|first|..|second|] == second[|first|..];
  }

  /** For example: an unfinished line is read, the file replaced by a longer one, and a line returned that never was. */
  lemma ReplacedUnnoticed()
    ensures LinesSoFar([Readable([97], false, 0), Readable([98, NEWLINE], false, 0)]) == [[97]]
    ensures LinesSoFar([Readable([98, NEWLINE], false, 0)]) == [[98]]
  {
    OneLine([97]);
    OneLine([98]);
    assert [98] + [NEWLINE] == [98, NEWLINE];
    OneRead([98, NEWLINE]);
    TwoReads([97], [98, NEWLINE]);
    assert [98, NEWLINE][1..] == [NEWLINE];
  }

  /** The file is only appended to, from call to call; a call may fail, or find no file yet. */
  ghost predicate OnlyGrows(views: seq<FileView>) {
    && (forall i :: 0 <= i < |views| ==> !views[i].SeekFailed?)
    && (forall i, j :: 0 <= i < j < |views| && views[i].Readable? && views[j].Readable?
          ==> views[i].content <= views[j].content)
  }

  lemma GrowsWithout(views: seq<FileView>, f: FileView)
    requires views != [] && OnlyGrows(views + [f])
    ensures OnlyGrows(views) && OnlyGrows(views[..|views| - 1] + [f])
  {
    var n := |views| - 1;
    var all, skip := views + [f], views[..n] + [f];
    assert forall i :: 0 <= i <= n ==> views[i] == all[i];
    assert forall i :: 0 <= i <= n ==> skip[i] == all[if i == n then n + 1 else i];
    forall i, j | 0 <= i < j < |skip| && skip[i].Readable? && skip[j].Readable?
      ensures skip[i].content <= skip[j].content
    {
      assert all[i] == skip[i] && all[if j == n then n + 1 else j] == skip[j];
    }
  }

  /** What was read of a growing file stands at the start of any later view of it. */
  lemma {:induction false} GrowingFile(views: seq<FileView>, f: FileView)
    requires f.Readable? && OnlyGrows(views + [f])
    ensures ReadSoFar(views) <= f.content
  {
    if views != [] {
      var n := |views| - 1;
      GrowsWithout(views, f);
      GrowingFile(views[..n], f);
      var file := views[n];
      if file.Readable? {
        assert views == views[..n] + [file];
        GrowingFile(views[..n], file);
        ReadsTheFile(ReadSoFar(views[..n]), file);
        assert (views + [f])[n] == file && (views + [f])[n + 1] == f;
      }
    }
  }

  /**
   However the reading of a growing file is split into calls, what was
   consumed in the end is the file, and the lines returned in total are those
   one call would return.
   */
  lemma SplittingIsInvisible(views: seq<FileView>, last: FileView)
    requires OnlyGrows(views + [last]) && last.Readable? && !last.failed
    ensures ReadSoFar(views + [last]) == last.content
    ensures LinesSoFar(views + [last]) == CompleteLines(last.content) == LinesSoFar([last])
  {
    var all := views + [last];
    assert all[..|views|] == views && [last][..0] == [];
    GrowingFile(views, last);
    ReadsTheFile(ReadSoFar(views), last);
    assert last.content[..|last.content|] == last.content;
    NothingLost(all);
    NothingLost([last]);
    ReadsTheFile([], last);
  }

  lemma CompleteLinesGrow(a: seq<Byte>, b: seq<Byte>)
    ensures CompleteLines(a) <= CompleteLines(a + b)
  {
    var more := SplitGrows(a, b, NEWLINE);
    FlatMapConcat(Kept, Split(a, NEWLINE)[..|Split(a, NEWLINE)| - 1], more);
  }

  /** A call on a file that has not shrunk returns just the lines its bytes complete. */
  lemma NewLinesComplete(consumed: seq<Byte>, file: FileView)
    requires !Resets(consumed, file)
    ensures CompleteLines(consumed) + NewLines(consumed, file) == CompleteLines(ReadStep(consumed, file))
  {
    if file.Readable? {
      CompleteLinesGrow(consumed, file.content[|consumed|..EndOf(file, |consumed|)]);
    }
  }

  // -------------------------------------------------------- files that shrink

  /** The calls between two replacements of the file: each begins with the call that found it shorter. */
  function Stretches(views: seq<FileView>): (stretches: seq<seq<FileView>>)
    ensures |stretches| >= 1
  {
    if views == [] then [[]]
    else
      var n := |views| - 1;
      var before := Stretches(views[..n]);
      if Resets(ReadSoFar(views[..n]), views[n]) then before + [[views[n]]]
      else
        var m := |before| - 1;
        before[..m] + [before[m] + [views[n]]]
  }

  /** What the calls of a stretch read, split at newlines. */
  function LinesOfStretch(stretch: seq<FileView>): seq<Line> {
    CompleteLines(ReadSoFar(stretch))
  }

  lemma ReadOneMore(views: seq<FileView>, file: FileView)
    ensures ReadSoFar(views + [file]) == ReadStep(ReadSoFar(views), file)
    ensures LinesSoFar(views + [file]) == LinesSoFar(views) + NewLines(ReadSoFar(views), file)
  {
    assert (views + [file])[..|views|] == views;
  }

  lemma NoLinesInNothing()
    ensures CompleteLines([]) == []
  {
    assert Split<Byte>([], NEWLINE) == [[]];
  }

  /** A call that finds the file shorter is the first call on a new one. */
  lemma ResetStartsAfresh(consumed: seq<Byte>, file: FileView)
    requires Resets(consumed, file)
    ensures ReadStep(consumed, file) == ReadStep([], file) == ReadSoFar([file])
    ensures NewLines(consumed, file) == NewLines([], file) == LinesSoFar([file]) == LinesOfStretch([file])
  {
    ReadOneMore([], file);
    assert [] + [file] == [file];
    NoLinesInNothing();
  }

  lemma {:induction false} ReadsLastStretch(views: seq<FileView>)
    ensures var stretches := Stretches(views); ReadSoFar(views) == ReadSoFar(stretches[|stretches| - 1])
  {
    if views != [] {
      var n := |views| - 1;
      ReadsLastStretch(views[..n]);
      if Resets(ReadSoFar(views[..n]), views[n]) {
        ResetStartsAfresh(ReadSoFar(views[..n]), views[n]);
      } else {
        var before := Stretches(views[..n]);
        ReadOneMore(before[|before| - 1], views[n]);
      }
    }
  }

  /**
   Whatever happens to the file, the calls together return, for each stretch
   between two shrinks, the complete lines of the bytes read in it.
   */
  lemma {:induction false} NothingLostAcrossShrinks(views: seq<FileView>)
    ensures LinesSoFar(views) == FlatMap(LinesOfStretch, Stretches(views))
  {
    if views == [] {
      NoLinesInNothing();
      assert FlatMap(LinesOfStretch, [[]]) == FlatMap(LinesOfStretch, []) + LinesOfStretch([]);
    } else {
      var n := |views| - 1;
      var consumed, before := ReadSoFar(views[..n]), Stretches(views[..n]);
      NothingLostAcrossShrinks(views[..n]);
      if Resets(consumed, views[n]) {
        ResetStartsAfresh(consumed, views[n]);
        FlatMapSnoc(LinesOfStretch, before, [views[n]]);
      } else {
        ReadsLastStretch(views[..n]);
        LongerStretch(before, views[n]);
      }
    }
  }

  lemma LongerStretch(stretches: seq<seq<FileView>>, file: FileView)
    requires stretches != [] && !Resets(ReadSoFar(stretches[|stretches| - 1]), file)
    ensures var m := |stretches| - 1;
      FlatMap(LinesOfStretch, stretches[..m] + [stretches[m] + [file]])
      == FlatMap(LinesOfStretch, stretches) + NewLines(ReadSoFar(stretches[m]), file)
  {
    var m := |stretches| - 1;
    StretchGoesOn(stretches[m], file);
    FlatMapSnoc(LinesOfStretch, stretches[..m], stretches[m] + [file]);
    AppendAssoc(FlatMap(LinesOfStretch, stretches[..m]), LinesOfStretch(stretches[m]), NewLines(ReadSoFar(stretches[m]), file));
  }

  lemma StretchGoesOn(stretch: seq<FileView>, file: FileView)
    requires !Resets(ReadSoFar(stretch), file)
    ensures LinesOfStretch(stretch + [file]) == LinesOfStretch(stretch) + NewLines(ReadSoFar(stretch), file)
  {
    ReadOneMore(stretch, file);
    NewLinesComplete(ReadSoFar(stretch), file);
  }

  function CallsOf(stretch: seq<FileView>): seq<FileView> {
    stretch
  }

  /** The stretches, one after another, are all the calls there were. */
  lemma {:induction false} StretchesAreTheCalls(views: seq<FileView>)
    ensures FlatMap(CallsOf, Stretches(views)) == views
  {
    if views == [] {
      assert FlatMap(CallsOf, [[]]) == FlatMap(CallsOf, []) + CallsOf([]);
    } else {
      var n := |views| - 1;
      StretchesAreTheCalls(views[..n]);
      OneMoreStretches(views);
      CallIsAdded(Stretches(views[..n]), Stretches(views), views[n]);
      ButLastAndLast(views);
    }
  }

  /** A call begins a stretch or lengthens the last one. */
  lemma OneMoreStretches(views: seq<FileView>)
    requires views != []
    ensures var n := |views| - 1;
      var before := Stretches(views[..n]);
      var m := |before| - 1;
      Stretches(views) == before + [[views[n]]] || Stretches(views) == before[..m] + [before[m] + [views[n]]]
  {
  }

  lemma CallIsAdded(before: seq<seq<FileView>>, after: seq<seq<FileView>>, view: FileView)
    requires before != []
    requires var m := |before| - 1; after == before + [[view]] || after == before[..m] + [before[m] + [view]]
    ensures FlatMap(CallsOf, after) == FlatMap(CallsOf, before) + [view]
  {
    OneMoreCall(before, view);
  }

  lemma OneMoreCall(stretches: seq<seq<FileView>>, view: FileView)
    requires stretches != []
    ensures var m := |stretches| - 1;
      FlatMap(CallsOf, stretches[..m] + [stretches[m] + [view]]) == FlatMap(CallsOf, stretches) + [view]
    ensures FlatMap(CallsOf, stretches + [[view]]) == FlatMap(CallsOf, stretches) + [view]
  {
    var m := |stretches| - 1;
    FlatMapSnoc(CallsOf, stretches, [view]);
    FlatMapSnoc(CallsOf, stretches[..m], stretches[m] + [view]);
    AppendAssoc(FlatMap(CallsOf, stretches[..m]), stretches[m], [view]);
  }

  /**
   From the call that finds the file shorter on, everything is as if reading
   began there, however the rest is split into calls and whether or not some of
   them fail part of the way.
   */
  lemma ReplacementIsReadAfresh(views: seq<FileView>, file: FileView, more: seq<FileView>)
    requires Resets(ReadSoFar(views), file)
    ensures ReadSoFar(views + [file] + more) == ReadSoFar([file] + more)
    ensures LinesSoFar(views + [file] + more) == LinesSoFar(views) + LinesSoFar([file] + more)
  {
    ReadOneMore(views, file);
    ResetStartsAfresh(ReadSoFar(views), file);
    SameFromThereOn(views + [file], [file], LinesSoFar(views), more, views + [file] + more, [file] + more);
  }

  lemma {:induction false} SameFromThereOn(views: seq<FileView>, anew: seq<FileView>, earlier: seq<Line>,
                                           more: seq<FileView>, all: seq<FileView>, allAnew: seq<FileView>)
    requires ReadSoFar(views) == ReadSoFar(anew) && LinesSoFar(views) == earlier + LinesSoFar(anew)
    requires all == views + more && allAnew == anew + more
    ensures ReadSoFar(all) == ReadSoFar(allAnew) && LinesSoFar(all) == earlier + LinesSoFar(allAnew)
    decreases |more|
  {
    if more == [] {
      assert all == views && allAnew == anew;
    } else {
      ReadsOn(views, anew, earlier, more[0]);
      MoveOne(views, more);
      MoveOne(anew, more);
      SameFromThereOn(views + [more[0]], anew + [more[0]], earlier, more[1..], all, allAnew);
    }
  }

  lemma ReadsOn(views: seq<FileView>, anew: seq<FileView>, earlier: seq<Line>, file: FileView)
    requires ReadSoFar(views) == ReadSoFar(anew) && LinesSoFar(views) == earlier + LinesSoFar(anew)
    ensures ReadSoFar(views + [file]) == ReadSoFar(anew + [file])
    ensures LinesSoFar(views + [file]) == earlier + LinesSoFar(anew + [file])
  {
    ReadOneMore(views, file);
    ReadOneMore(anew, file);
    AppendAssoc(earlier, LinesSoFar(anew), NewLines(ReadSoFar(anew), file));
  }

  /** So after a shrink, while the new file grows, the lines returned are the complete lines read of it. */
  lemma ReplacementLosesNothing(views: seq<FileView>, file: FileView, more: seq<FileView>)
    requires Resets(ReadSoFar(views), file) && OnlyGrows([file] + more)
    ensures LinesSoFar(views + [file] + more) == LinesSoFar(views) + CompleteLines(ReadSoFar([file] + more))
  {
    ReplacementIsReadAfresh(views, file, more);
    NothingLost([file] + more);
  }

  /** A file that only grows has one stretch. */
  lemma {:induction false} GrowingIsOneStretch(views: seq<FileView>)
    requires OnlyGrows(views)
    ensures Stretches(views) == [views]
  {
    if views != [] {
      var n := |views| - 1;
      GrowingIsOneStretch(views[..n]);
      if views[n].Readable? {
        assert views == views[..n] + [views[n]];
        GrowingFile(views[..n], views[n]);
      }
      assert views == views[..n] + [views[n]];
    }
  }

  /** While a file grows, the calls together return the complete lines of what they consumed. */
  lemma NothingLost(views: seq<FileView>)
    requires OnlyGrows(views)
    ensures LinesSoFar(views) == CompleteLines(ReadSoFar(views))
  {
    GrowingIsOneStretch(views);
    NothingLostAcrossShrinks(views);
    assert FlatMap(LinesOfStretch, [views]) == FlatMap(LinesOfStretch, []) + LinesOfStretch(views);
  }
}
