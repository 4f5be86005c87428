/**
 What a watcher should hand on: the parse of the lines of one session after
 another.  The parser may keep state: it is a function of the lines it was
 given before and the line it is given now.
 */
module EventStreams {
  import opened Text

  /** None is a parse error: the line is skipped. */
  type Parser<!L, !E> = (seq<L>, L) -> Option<seq<E>>

  function Parsed<E>(events: Option<seq<E>>): seq<E> {
    match events
    case None => []
    case Some(es) => es
  }

  function ParseAll<L, E>(parse: Parser<L, E>, earlier: seq<L>, lines: seq<L>): seq<E> {
    if lines == [] then []
    else
      var n := |lines| - 1;
      ParseAll(parse, earlier, lines[..n]) + Parsed(parse(earlier + lines[..n], lines[n]))
  }

  function Concat<L>(groups: seq<seq<L>>): seq<L> {
    if groups == [] then [] else Concat(groups[..|groups| - 1]) + groups[|groups| - 1]
  }

  /** For each session the parse of its lines, with one switch event between sessions. */
  function Stream<L, E>(parse: Parser<L, E>, switched: E, sessions: seq<seq<L>>): seq<E> {
    if sessions == [] then []
    else
      var n := |sessions| - 1;
      Stream(parse, switched, sessions[..n])
      + (if n == 0 then [] else [switched])
      + ParseAll(parse, Concat(sessions[..n]), sessions[n])
  }

  lemma ParseAllSnoc<L, E>(parse: Parser<L, E>, earlier: seq<L>, lines: seq<L>, line: L)
    ensures ParseAll(parse, earlier, lines + [line])
            == ParseAll(parse, earlier, lines) + Parsed(parse(earlier + lines, line))
  {
    assert (lines + [line])[..|lines|] == lines;
  }

  lemma {:induction false} ParseAllConcat<L, E>(parse: Parser<L, E>, earlier: seq<L>, a: seq<L>, b: seq<L>)
    ensures ParseAll(parse, earlier, a + b) == ParseAll(parse, earlier, a) + ParseAll(parse, earlier + a, b)
  {
    if b == [] {
      assert a + b == a;
    } else {
      var init, line := b[..|b| - 1], b[|b| - 1];
      ParseAllConcat(parse, earlier, a, init);
      ParseAllSnoc(parse, earlier, a + init, line);
      ParseAllSnoc(parse, earlier + a, init, line);
      assert b == init + [line];
      AppendAssoc(a, init, [line]);
      AppendAssoc(earlier, a, init);
      AppendAssoc(ParseAll(parse, earlier, a), ParseAll(parse, earlier + a, init), Parsed(parse(earlier + a + init, line)));
    }
  }

  /** What comes before the events of one more session. */
  function Lead<L, E>(parse: Parser<L, E>, switched: E, groups: seq<seq<L>>): seq<E> {
    Stream(parse, switched, groups) + if groups == [] then [] else [switched]
  }

  lemma StreamSnoc<L, E>(parse: Parser<L, E>, switched: E, groups: seq<seq<L>>, last: seq<L>)
    ensures Concat(groups + [last]) == Concat(groups) + last
    ensures Stream(parse, switched, groups + [last])
            == Lead(parse, switched, groups) + ParseAll(parse, Concat(groups), last)
  {
    assert (groups + [last])[..|groups|] == groups;
  }

  /** More lines in the last session are more events at the end of the stream. */
  lemma LongerLast<L, E>(parse: Parser<L, E>, switched: E, groups: seq<seq<L>>, last: seq<L>, lines: seq<L>)
    ensures Concat(groups + [last + lines]) == Concat(groups + [last]) + lines
    ensures Stream(parse, switched, groups + [last + lines])
            == Stream(parse, switched, groups + [last]) + ParseAll(parse, Concat(groups + [last]), lines)
  {
    StreamSnoc(parse, switched, groups, last);
    StreamSnoc(parse, switched, groups, last + lines);
    var earlier := Concat(groups);
    ParseAllConcat(parse, earlier, last, lines);
    AppendAssoc(earlier, last, lines);
    AppendAssoc(Lead(parse, switched, groups), ParseAll(parse, earlier, last), ParseAll(parse, earlier + last, lines));
  }
}

/** lib/transcript/watcher.go: tailing the newest session file and handing the parsed events on. */
module Watchers {
  import opened Text
  import opened Tail
  import opened EmitterModel
  import opened EventStreams

  const DISCOVER_EVERY := 7

  type LineParser = Parser<Line, TimelineEvent>

  const SWITCHED := TimelineEvent("system", "system", "", "session switched", "", "", "", "")

  datatype Discovery = Newest(path: string) | DiscoveryFailed

  /** One file tailed from its start, and what each read of it saw. */
  datatype Session = Session(path: string, views: seq<FileView>)

  // ----------------------------------------------------- what should be handled

  function SessionLines(sessions: seq<Session>): seq<seq<Line>> {
    seq(|sessions|, i requires 0 <= i < |sessions| => LinesSoFar(sessions[i].views))
  }

  // -------------------------------------------------------- which files are read

  /** One tick of the poller: the files at its drain, what discovery says, the files at a flush before a switch. */
  datatype Poll = Poll(files: string -> FileView, found: Discovery, flush: string -> FileView)

  /** The last session, read once more. */
  function DrainLast(sessions: seq<Session>, file: FileView): seq<Session>
    requires sessions != []
  {
    var n := |sessions| - 1;
    sessions[n := sessions[n].(views := sessions[n].views + [file])]
  }

  function LastPath(sessions: seq<Session>): string
    requires sessions != []
  {
    sessions[|sessions| - 1].path
  }

  predicate Switches(sessions: seq<Session>, found: Discovery) {
    found.Newest? && found.path != "" && (sessions != [] ==> found.path != LastPath(sessions))
  }

  function DiscoverStep(sessions: seq<Session>, found: Discovery, flush: string -> FileView): seq<Session> {
    if !Switches(sessions, found) then sessions
    else (if sessions == [] then [] else DrainLast(sessions, flush(LastPath(sessions)))) + [Session(found.path, [])]
  }

  /** The sessions after the first discovery and `polls` ticks. */
  function Sessions(first: Discovery, polls: seq<Poll>): seq<Session> {
    if polls == [] then DiscoverStep([], first, path => Missing)
    else
      var n := |polls| - 1;
      var before := Sessions(first, polls[..n]);
      var drained := if before == [] then [] else DrainLast(before, polls[n].files(LastPath(before)));
      if |polls| % DISCOVER_EVERY == 0 then DiscoverStep(drained, polls[n].found, polls[n].flush) else drained
  }

  // ---------------------------------------------------------------- the watcher

  /** What was handled is what the lines of the sessions make. */
  ghost predicate HandledAll(parse: LineParser, fed: seq<Line>, handled: seq<TimelineEvent>, sessions: seq<Session>) {
    fed == Concat(SessionLines(sessions)) && handled == Stream(parse, SWITCHED, SessionLines(sessions))
  }

  ghost predicate Reads(tail: Tailer, s: Session)
    reads tail
  {
    tail.path == s.path && tail.consumed == ReadSoFar(s.views)
  }

  class Watcher {
    const parse: LineParser
    var tail: Tailer?
    var fed: seq<Line>                   // every line the parser was given
    var handled: seq<TimelineEvent>      // every event given to the handler
    ghost var sessions: seq<Session>

    /** The tailer is at work on the last session. */
    ghost predicate TailValid()
      reads this`tail, this`sessions, tail
    {
      if sessions == [] then tail == null
      else tail != null && tail.Valid() && Reads(tail, sessions[|sessions| - 1])
    }

    ghost predicate Valid()
      reads this, tail
    {
      TailValid() && HandledAll(parse, fed, handled, sessions)
    }

    constructor (parse: LineParser)
      ensures Valid() && sessions == [] && tail == null
    {
      this.parse := parse;
      tail, fed, handled, sessions := null, [], [], [];
    }

    method ParseLines(lines: seq<Line>)
      modifies this`fed, this`handled
      ensures fed == old(fed) + lines
      ensures handled == old(handled) + ParseAll(parse, old(fed), lines)
    {
      for i := 0 to |lines|
        invariant fed == old(fed) + lines[..i]
        invariant handled == old(handled) + ParseAll(parse, old(fed), lines[..i])
      {
        ParseAllSnoc(parse, old(fed), lines[..i], lines[i]);
        assert lines[..i + 1] == lines[..i] + [lines[i]];
        var events := parse(fed, lines[i]);
        AppendAssoc(old(handled), ParseAll(parse, old(fed), lines[..i]), Parsed(events));
        fed := fed + [lines[i]];
        if events.Some? {
          Handle(events.value);
        }
      }
      assert lines[..|lines|] == lines;
    }

    /** The handler is called with one event after another. */
    method Handle(events: seq<TimelineEvent>)
      modifies this`handled
      ensures handled == old(handled) + events
    {
      for j := 0 to |events|
        invariant handled == old(handled) + events[..j]
      {
        handled := handled + [events[j]];
      }
      assert events[..|events|] == events;
    }

    method Drain(file: FileView)
      requires Valid() && tail != null
      modifies this`fed, this`handled, this`sessions, tail
      ensures Valid() && tail == old(tail)
      ensures sessions == DrainLast(old(sessions), file)
    {
      ghost var before := sessions;
      var lines := ReadTail(file);
      HandleLines(lines, before, file);
    }

    /** The failure a read may report is logged, and its lines are used all the same. */
    method ReadTail(file: FileView) returns (lines: seq<Line>)
      requires TailValid() && tail != null
      modifies this`sessions, tail
      ensures TailValid() && tail == old(tail) && sessions == DrainLast(old(sessions), file)
      ensures lines == NewLines(ReadSoFar(old(sessions)[|old(sessions)| - 1].views), file)
    {
      ghost var views := sessions[|sessions| - 1].views;
      assert (views + [file])[..|views|] == views;
      var failed;
      lines, failed := tail.Drain(file);
      sessions := DrainLast(sessions, file);
    }

    method HandleLines(lines: seq<Line>, ghost before: seq<Session>, ghost file: FileView)
      requires before != [] && HandledAll(parse, fed, handled, before) && sessions == DrainLast(before, file)
      requires lines == NewLines(ReadSoFar(before[|before| - 1].views), file)
      modifies this`fed, this`handled
      ensures HandledAll(parse, fed, handled, sessions)
    {
      DrainedStream(parse, before, file);
      ParseLines(lines);
    }

    method Discover(found: Discovery, flush: string -> FileView)
      requires Valid()
      modifies this, tail
      ensures Valid() && (tail == old(tail) || fresh(tail))
      ensures sessions == DiscoverStep(old(sessions), found, flush)
    {
      if found.DiscoveryFailed? {
        return;
      }
      if found.path == "" || (tail != null && found.path == tail.path) {
        return;
      }
      if tail != null {
        Leave(flush(tail.path));
      }
      Open(found.path);
    }

    /** Flush what remains of the session, and announce the switch. */
    method Leave(file: FileView)
      requires Valid() && tail != null
      modifies this`fed, this`handled, this`sessions, tail
      ensures tail == old(tail) && sessions == DrainLast(old(sessions), file)
      ensures BetweenSessions()
    {
      Drain(file);
      handled := handled + [SWITCHED];
    }

    ghost predicate BetweenSessions()
      reads this
    {
      fed == Concat(SessionLines(sessions)) && handled == Lead(parse, SWITCHED, SessionLines(sessions))
    }

    method Open(path: string)
      requires BetweenSessions()
      modifies this
      ensures Valid() && fresh(tail) && sessions == old(sessions) + [Session(path, [])]
    {
      OpenedStream(parse, sessions, path);
      sessions := sessions + [Session(path, [])];
      tail := new Tailer(path);
    }

    /** The loop, for as many ticks as the context allows. */
    method Loop(first: Discovery, polls: seq<Poll>)
      requires Valid() && sessions == []
      modifies this, tail
      ensures Valid() && sessions == Sessions(first, polls)
      ensures handled == Stream(parse, SWITCHED, SessionLines(Sessions(first, polls)))
    {
      Discover(first, path => Missing);
      var tick := 0;
      while tick < |polls|
        invariant 0 <= tick <= |polls|
        invariant Valid() && (tail == null || fresh(tail))
        invariant sessions == Sessions(first, polls[..tick])
      {
        var poll := polls[tick];
        tick := tick + 1;
        assert polls[..tick][..tick - 1] == polls[..tick - 1];
        if tail == null {
          if tick % DISCOVER_EVERY == 0 {
            Discover(poll.found, poll.flush);
          }
          continue;
        }
        Drain(poll.files(tail.path));
        if tick % DISCOVER_EVERY == 0 {
          Discover(poll.found, poll.flush);
        }
      }
      assert polls[..tick] == polls;
    }
  }

  /** A drain adds its lines to the last session. */
  lemma DrainedStream(parse: LineParser, sessions: seq<Session>, file: FileView)
    requires sessions != []
    ensures var views := sessions[|sessions| - 1].views;
            var lines := NewLines(ReadSoFar(views), file);
            var before, after := SessionLines(sessions), SessionLines(DrainLast(sessions, file));
            && Concat(after) == Concat(before) + lines
            && Stream(parse, SWITCHED, after) == Stream(parse, SWITCHED, before) + ParseAll(parse, Concat(before), lines)
  {
    var n := |sessions| - 1;
    var views := sessions[n].views;
    DrainedLines(sessions, file);
    LongerLast(parse, SWITCHED, SessionLines(sessions[..n]), LinesSoFar(views), NewLines(ReadSoFar(views), file));
  }

  lemma DrainedLines(sessions: seq<Session>, file: FileView)
    requires sessions != []
    ensures var n := |sessions| - 1;
            var views := sessions[n].views;
            && SessionLines(sessions) == SessionLines(sessions[..n]) + [LinesSoFar(views)]
            && SessionLines(DrainLast(sessions, file))
               == SessionLines(sessions[..n]) + [LinesSoFar(views) + NewLines(ReadSoFar(views), file)]
  {
    var n := |sessions| - 1;
    ReadOneMore(sessions[n].views, file);
    LastSession(sessions);
    LastSession(DrainLast(sessions, file));
    assert DrainLast(sessions, file)[..n] == sessions[..n];
  }

  lemma LastSession(sessions: seq<Session>)
    requires sessions != []
    ensures var n := |sessions| - 1; SessionLines(sessions) == SessionLines(sessions[..n]) + [LinesSoFar(sessions[n].views)]
  {
  }

  /** A new session adds a switch event, unless it is the first. */
  lemma OpenedStream(parse: LineParser, sessions: seq<Session>, path: string)
    ensures var before, after := SessionLines(sessions), SessionLines(sessions + [Session(path, [])]);
            && Concat(after) == Concat(before)
            && Stream(parse, SWITCHED, after) == Lead(parse, SWITCHED, before)
  {
    var before, after := SessionLines(sessions), SessionLines(sessions + [Session(path, [])]);
    assert after[..|sessions|] == before && after[|sessions|] == [];
  }

  // ---------------------------------------------------------- what a run handles

  /** For each session the complete lines of what was read, stretch by stretch when its file was replaced. */
  function LinesRead(sessions: seq<Session>): seq<seq<Line>> {
    seq(|sessions|, i requires 0 <= i < |sessions| => FlatMap(LinesOfStretch, Stretches(sessions[i].views)))
  }

  /** The calls of a stretch saw the file only grow, and the last of them read it to its end. */
  ghost predicate ReadToTheEnd(stretch: seq<FileView>) {
    && stretch != [] && OnlyGrows(stretch)
    && stretch[|stretch| - 1].Readable? && !stretch[|stretch| - 1].failed
  }

  lemma ReadIsTheFile(stretch: seq<FileView>)
    requires ReadToTheEnd(stretch)
    ensures ReadSoFar(stretch) == stretch[|stretch| - 1].content
  {
    var n := |stretch| - 1;
    assert stretch == stretch[..n] + [stretch[n]];
    SplittingIsInvisible(stretch[..n], stretch[n]);
  }

  /**
   Whatever the tailed files do, a run hands on, session by session, the parse
   of exactly the complete lines of the bytes read, from the start again
   wherever a file was found shorter.  Where a stretch of reads saw its file
   only grow and the last read succeeded, these bytes are the file as that read
   saw it.
   */
  lemma NothingLostOrRepeated(parse: LineParser, first: Discovery, polls: seq<Poll>)
    ensures var ss := Sessions(first, polls);
            && Stream(parse, SWITCHED, SessionLines(ss)) == Stream(parse, SWITCHED, LinesRead(ss))
            && (forall i, stretch: seq<FileView> :: 0 <= i < |ss| && stretch in Stretches(ss[i].views) && ReadToTheEnd(stretch) ==>
                  ReadSoFar(stretch) == stretch[|stretch| - 1].content)
  {
    var ss := Sessions(first, polls);
    forall i | 0 <= i < |ss|
      ensures SessionLines(ss)[i] == LinesRead(ss)[i]
    {
      NothingLostAcrossShrinks(ss[i].views);
    }
    assert SessionLines(ss) == LinesRead(ss);
    forall i, stretch: seq<FileView> | 0 <= i < |ss| && stretch in Stretches(ss[i].views) && ReadToTheEnd(stretch)
      ensures ReadSoFar(stretch) == stretch[|stretch| - 1].content
    {
      ReadIsTheFile(stretch);
    }
  }

  /** For files that only grow: one stretch each, so the lines of the whole file as read. */
  lemma GrowingSessions(ss: seq<Session>)
    requires forall i :: 0 <= i < |ss| ==> OnlyGrows(ss[i].views)
    ensures forall i :: 0 <= i < |ss| ==> LinesRead(ss)[i] == CompleteLines(ReadSoFar(ss[i].views))
  {
    forall i | 0 <= i < |ss|
      ensures LinesRead(ss)[i] == CompleteLines(ReadSoFar(ss[i].views))
    {
      NothingLostAcrossShrinks(ss[i].views);
      NothingLost(ss[i].views);
    }
  }

  /** Neighbouring sessions tail different files, and each was read once more as it was left. */
  ghost predicate Chained(ss: seq<Session>) {
    && (forall i :: 0 <= i < |ss| ==> ss[i].path != "")
    && (forall i :: 0 <= i < |ss| - 1 ==> ss[i].views != [])
    && (forall i, j :: 0 <= i && j == i + 1 && j < |ss| ==> ss[i].path != ss[j].path)
  }

  lemma DrainKeepsChain(ss: seq<Session>, file: FileView)
    requires Chained(ss) && ss != []
    ensures var t := DrainLast(ss, file); Chained(t) && LastPath(t) == LastPath(ss) && t[|t| - 1].views != []
  {
  }

  lemma DiscoverKeepsChain(ss: seq<Session>, found: Discovery, flush: string -> FileView)
    requires Chained(ss)
    ensures Chained(DiscoverStep(ss, found, flush))
  {
    if ss != [] {
      DrainKeepsChain(ss, flush(LastPath(ss)));
    }
  }

  lemma {:induction false} SwitchesFlush(first: Discovery, polls: seq<Poll>)
    ensures Chained(Sessions(first, polls))
  {
    if polls == [] {
      DiscoverKeepsChain([], first, path => Missing);
    } else {
      var n := |polls| - 1;
      SwitchesFlush(first, polls[..n]);
      var before := Sessions(first, polls[..n]);
      if before != [] {
        DrainKeepsChain(before, polls[n].files(LastPath(before)));
      }
      var drained := if before == [] then [] else DrainLast(before, polls[n].files(LastPath(before)));
      DiscoverKeepsChain(drained, polls[n].found, polls[n].flush);
    }
  }
}
