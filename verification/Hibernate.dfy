/** The hibernator (internal/hibernate/hibernate.go): it stands in for one
    Claude while it stops and starts many. */
module Hibernate {
  import opened Options
  import opened Stream
  import opened Conversation

  // -------------------------------------------------------------- lineWriter

  /** bytes.IndexByte of the first newline, or -1. */
  function Newline(s: string): (i: int)
    ensures -1 <= i < |s|
    ensures i >= 0 ==> s[i] == '\n' && '\n' !in s[..i]
    ensures i < 0 ==> '\n' !in s
  {
    if s == "" then -1
    else if s[0] == '\n' then 0
    else
      var i := Newline(s[1..]);
      if i < 0 then -1 else assert s[..i+1] == [s[0]] + s[1..][..i]; i + 1
  }

  /** The ended lines of what was written, without their newlines. */
  function Lines(s: string): seq<Line>
    decreases |s|
  {
    var i := Newline(s);
    if i < 0 then [] else [s[..i]] + Lines(s[i+1..])
  }

  /** The start of a line that hasn't ended. */
  function Rest(s: string): string
    decreases |s|
  {
    var i := Newline(s);
    if i < 0 then s else Rest(s[i+1..])
  }

  lemma {:induction false} NewlineFirst(a: string, b: string)
    requires Newline(a) >= 0
    ensures Newline(a + b) == Newline(a)
  {
    if a[0] != '\n' {
      assert (a + b)[1..] == a[1..] + b;
      NewlineFirst(a[1..], b);
    }
  }

  /** However output is cut into writes, its lines are the same. */
  lemma {:induction false} LinesOfPieces(a: string, b: string)
    ensures Lines(a + b) == Lines(a) + Lines(Rest(a) + b)
    ensures Rest(a + b) == Rest(Rest(a) + b)
    decreases |a|
  {
    hide Newline;
    var i := Newline(a);
    if i >= 0 {
      NewlineFirst(a, b);
      assert (a + b)[..i] == a[..i] && (a + b)[i+1..] == a[i+1..] + b;
      LinesOfPieces(a[i+1..], b);
    }
  }

  /** Lines put together again, each with its newline. */
  function Ended(lines: seq<Line>): string {
    if lines == [] then "" else lines[0] + "\n" + Ended(lines[1..])
  }

  lemma JoinedAgain(s: string, i: nat, lines: string, rest: string)
    requires i < |s| && s[i] == '\n' && lines + rest == s[i+1..]
    ensures s[..i] + "\n" + lines + rest == s
  {
    assert s[..i] + "\n" + lines + rest == s[..i] + "\n" + (lines + rest);
    assert s == s[..i] + [s[i]] + s[i+1..];
  }

  lemma EndedMore(line: Line, lines: seq<Line>)
    ensures Ended([]) == "" && Ended([line] + lines) == line + "\n" + Ended(lines)
  {
    assert ([line] + lines)[1..] == lines;
  }

  /** The lines and the rest are what was written, cut at every newline. */
  lemma {:induction false} LinesAre(s: string)
    ensures Ended(Lines(s)) + Rest(s) == s
    ensures '\n' !in Rest(s) && forall line | line in Lines(s) :: '\n' !in line
    decreases |s|
  {
    hide Newline, Ended;
    var i := Newline(s);
    if i < 0 {
      EndedMore("", []);
    } else {
      var rest := s[i+1..];
      LinesAre(rest);
      EndedMore(s[..i], Lines(rest));
      JoinedAgain(s, i, Ended(Lines(rest)), Rest(rest));
    }
  }

  /** Claude's output as events: each ended line. */
  function Gots(lines: seq<Line>): Trace {
    seq(|lines|, i requires 0 <= i < |lines| => Got(lines[i], true))
  }

  lemma GotsAppend(t: Trace, lines: seq<Line>, line: Line)
    ensures t + Gots([]) == t
    ensures t + Gots(lines) + [Got(line, true)] == t + Gots(lines + [line])
  {
  }

  lemma LinesStep(s: string, done: seq<Line>)
    requires Newline(s) >= 0
    ensures var i := Newline(s);
      done + Lines(s) == (done + [s[..i]]) + Lines(s[i+1..]) && Rest(s) == Rest(s[i+1..])
  {
    hide Newline;
    var i := Newline(s);
    assert Lines(s) == [s[..i]] + Lines(s[i+1..]);
  }

  /** What a Claude that has ended wrote: its last line may lack its newline. */
  function AllGots(output: string): Trace {
    Gots(Lines(output)) + if Rest(output) == "" then [] else [Got(Rest(output), false)]
  }

  /** lineWriter: from Claude's output, cut anywhere, to the lines the SDK sees. */
  class LineWriter {
    const tracker: Tracker
    var buf: string
    var out: string // what the SDK has been passed

    constructor (tracker: Tracker, out: string)
      ensures this.tracker == tracker && this.out == out && buf == ""
    {
      this.tracker, this.out, buf := tracker, out, "";
    }

    /** The writer is up to date with trace t. */
    ghost predicate UpTo(t: Trace)
      reads this, tracker
    {
      tracker.View() == After(tracker.parse, t).st && out == ShownText(tracker.parse, t)
    }

    method Pass(line: Line, ended: bool, now: int, ghost t: Trace)
      requires UpTo(t)
      modifies this`out, tracker
      ensures UpTo(t + [Got(line, ended)])
    {
      Append(tracker.parse, t, Got(line, ended));
      AppendGot(tracker.parse, t, line, ended);
      var shown := tracker.Out(line, now);
      if shown {
        out := out + line + if ended then "\n" else "";
      }
    }

    method Write(p: string, now: int, ghost t: Trace)
      requires UpTo(t)
      modifies this, tracker
      ensures buf == Rest(old(buf) + p)
      ensures UpTo(t + Gots(Lines(old(buf) + p)))
    {
      hide After, ShownText, Replayed, Tracker.View, Gots, Newline;
      buf := buf + p;
      var rest := buf;
      ghost var done: seq<Line> := [];
      GotsAppend(t, done, "");
      while true
        invariant buf == old(buf) + p
        invariant Lines(buf) == done + Lines(rest) && Rest(buf) == Rest(rest)
        invariant UpTo(t + Gots(done))
        decreases |rest|
      {
        var i := Newline(rest);
        if i < 0 {
          break;
        }
        var line := rest[..i];
        LinesStep(rest, done);
        GotsAppend(t, done, line);
        Pass(line, true, now, t + Gots(done));
        done := done + [line];
        rest := rest[i+1..];
      }
      assert Lines(rest) == [] && Rest(rest) == rest && done + [] == done;
      buf := rest;
    }

    method Flush(now: int, ghost t: Trace)
      requires UpTo(t)
      modifies this, tracker
      ensures UpTo(t + if old(buf) == "" then [] else [Got(old(buf), false)])
    {
      assert t + [] == t;
      if |buf| == 0 {
        return;
      }
      Pass(buf, false, now, t);
      buf := "";
    }
  }

  // ---------------------------------------------------------- the Claudes

  /** One Claude process: how it was started, what it was given and what it wrote. */
  datatype Claude = Claude(
    argv: seq<string>,
    setup: seq<Line>,
    lines: seq<Line>,
    output: string,
    signals: seq<int>,
    closed: bool,
    cancelled: bool)

  /** The SDK's lines handed to the Claudes, one after another. */
  function Handed(claudes: seq<Claude>): seq<Line> {
    if claudes == [] then [] else Handed(claudes[..|claudes|-1]) + claudes[|claudes|-1].lines
  }

  /** What Claudes that have ended wrote. */
  function Wrote(claudes: seq<Claude>): Trace {
    if claudes == [] then [] else Wrote(claudes[..|claudes|-1]) + AllGots(claudes[|claudes|-1].output)
  }

  function Current(claudes: seq<Claude>): Claude
    requires claudes != []
  {
    claudes[|claudes|-1]
  }

  function WithCurrent(claudes: seq<Claude>, c: Claude): seq<Claude>
    requires claudes != []
  {
    claudes[..|claudes|-1] + [c]
  }

  /** The Claudes are as trace t says: the one that runs now, if it runs, and
      those before it. */
  ghost predicate Follow(parse: Parser, claudes: seq<Claude>, running: bool, t: Trace) {
    && claudes != [] && Legal(parse, t)
    && SentLines(t) == Handed(claudes)
    && GivenLines(parse, t) == Current(claudes).setup + Current(claudes).lines
    && GotEvents(t) == Wrote(claudes[..|claudes|-1]) +
         (if running then Gots(Lines(Current(claudes).output)) else AllGots(Current(claudes).output))
  }

  lemma FollowSend(parse: Parser, claudes: seq<Claude>, t: Trace, line: Line)
    requires Follow(parse, claudes, true, t) && !After(parse, t).stopping
    ensures Follow(parse, WithCurrent(claudes, Current(claudes).(lines := Current(claudes).lines + [line])), true,
      t + [Sent(line)])
    ensures !After(parse, t + [Sent(line)]).stopping
  {
    hide Replayed, Gots, Lines, Rest, AfterIn, AfterOut, AfterRestart;
    var c := Current(claudes).(lines := Current(claudes).lines + [line]);
    var next := WithCurrent(claudes, c);
    Append(parse, t, Sent(line));
    AppendOther(parse, t, Sent(line));
    assert next[..|next|-1] == claudes[..|claudes|-1];
    assert Handed(next) == Handed(claudes) + [line];
  }

  lemma GivenRestart(parse: Parser, t: Trace)
    ensures GivenLines(parse, t + [Restart]) == SetupLines(After(parse, t).st.setup, Replayed())
  {
    hide After, SetupLines, Replayed;
    assert Init(t + [Restart]) == t;
  }

  lemma NextClaude(claudes: seq<Claude>, c: Claude)
    requires c.lines == [] && c.output == ""
    ensures var next := claudes + [c];
      && next[..|next|-1] == claudes && Current(next) == c && Handed(next) == Handed(claudes)
      && Gots(Lines(c.output)) == []
    ensures claudes != [] ==> Wrote(claudes) == Wrote(claudes[..|claudes|-1]) + AllGots(Current(claudes).output)
  {
    var next := claudes + [c];
    assert next[..|next|-1] == claudes;
    assert Handed(next) == Handed(claudes) + [];
    assert Lines("") == [] by { assert Newline("") < 0; }
  }

  lemma FollowRestart(parse: Parser, claudes: seq<Claude>, t: Trace, c: Claude)
    requires Follow(parse, claudes, false, t) && After(parse, t).stopping
    requires c.setup == SetupLines(After(parse, t).st.setup, Replayed()) && c.lines == [] && c.output == ""
    ensures Follow(parse, claudes + [c], true, t + [Restart])
    ensures !After(parse, t + [Restart]).stopping
  {
    hide Handed, Wrote, Gots, AllGots, Lines, Rest, SetupLines, Replayed, After, Legal, AfterRestart, SentLines,
      GivenLines, GotEvents;
    NextClaude(claudes, c);
    Append(parse, t, Restart);
    AppendOther(parse, t, Restart);
    GivenRestart(parse, t);
    assert c.setup + c.lines == c.setup;
    assert GotEvents(t + [Restart]) == Wrote(claudes) == Wrote(claudes) + [];
  }

  lemma FollowStop(parse: Parser, claudes: seq<Claude>, t: Trace)
    requires Follow(parse, claudes, true, t) && !After(parse, t).stopping && IsIdle(After(parse, t).st)
    ensures Follow(parse, claudes, true, t + [Stop]) && After(parse, t + [Stop]).stopping
  {
    hide Replayed, Gots, Lines, Rest, AfterIn, AfterOut, AfterRestart;
    Append(parse, t, Stop);
    AppendOther(parse, t, Stop);
  }

  lemma {:induction false} AppendGots(parse: Parser, t: Trace, gots: Trace)
    requires Legal(parse, t) && forall i | 0 <= i < |gots| :: gots[i].Got?
    ensures Legal(parse, t + gots) && After(parse, t + gots).stopping == After(parse, t).stopping
    ensures GotEvents(t + gots) == GotEvents(t) + gots && SentLines(t + gots) == SentLines(t)
    ensures GivenLines(parse, t + gots) == GivenLines(parse, t)
  {
    hide Replayed, AfterOut, After, Legal, GotEvents, SentLines, GivenLines, SetupLines, ShownText, AfterIn,
      AfterRestart;
    if gots == [] {
      assert t + gots == t;
    } else {
      var u, e := gots[..|gots|-1], gots[|gots|-1];
      AppendGots(parse, t, u);
      assert t + gots == (t + u) + [e];
      Append(parse, t + u, e);
      AppendGot(parse, t + u, e.line, e.ended);
    }
  }

  lemma FollowOutput(parse: Parser, claudes: seq<Claude>, t: Trace, p: string)
    requires Follow(parse, claudes, true, t)
    ensures var c := Current(claudes);
      var t' := t + Gots(Lines(Rest(c.output) + p));
      && Follow(parse, WithCurrent(claudes, c.(output := c.output + p)), true, t')
      && After(parse, t').stopping == After(parse, t).stopping
      && Rest(c.output + p) == Rest(Rest(c.output) + p)
  {
    hide Lines, Rest, SetupLines, Replayed, After, Legal, Wrote, GivenLines, SentLines, GotEvents;
    var c := Current(claudes);
    var next := WithCurrent(claudes, c.(output := c.output + p));
    LinesOfPieces(c.output, p);
    AppendGots(parse, t, Gots(Lines(Rest(c.output) + p)));
    assert next[..|next|-1] == claudes[..|claudes|-1];
    assert Handed(next) == Handed(claudes);
    hide Handed;
    GotsConcat(Lines(c.output), Lines(Rest(c.output) + p));
    hide Gots;
  }

  lemma GotsConcat(a: seq<Line>, b: seq<Line>)
    ensures Gots(a + b) == Gots(a) + Gots(b)
  {
  }

  lemma FollowExit(parse: Parser, claudes: seq<Claude>, t: Trace)
    requires Follow(parse, claudes, true, t)
    ensures var rest := Rest(Current(claudes).output);
      var t' := t + if rest == "" then [] else [Got(rest, false)];
      Follow(parse, claudes, false, t') && After(parse, t').stopping == After(parse, t).stopping
  {
    hide Replayed, Lines, Rest, AfterIn, AfterOut, AfterRestart, After, Legal;
    var rest := Rest(Current(claudes).output);
    AppendGots(parse, t, if rest == "" then [] else [Got(rest, false)]);
  }

  lemma FollowOther(parse: Parser, claudes: seq<Claude>, running: bool, t: Trace, c: Claude)
    requires Follow(parse, claudes, running, t)
    requires c == Current(claudes).(signals := c.signals, closed := c.closed, cancelled := c.cancelled)
    ensures Follow(parse, WithCurrent(claudes, c), running, t)
  {
    hide Replayed, Lines, Rest, After, Legal;
    var next := WithCurrent(claudes, c);
    assert next[..|next|-1] == claudes[..|claudes|-1];
    assert Handed(next) == Handed(claudes);
  }

  lemma SendHands(claudes: seq<Claude>, line: Line)
    requires claudes != []
    ensures var c := Current(claudes).(lines := Current(claudes).lines + [line]);
      Handed(WithCurrent(claudes, c)) == Handed(claudes) + [line]
  {
    var c := Current(claudes).(lines := Current(claudes).lines + [line]);
    var next := WithCurrent(claudes, c);
    assert next[..|next|-1] == claudes[..|claudes|-1];
  }

  lemma OtherHands(claudes: seq<Claude>, c: Claude)
    requires claudes != [] && c.lines == Current(claudes).lines
    ensures Handed(WithCurrent(claudes, c)) == Handed(claudes)
  {
    var next := WithCurrent(claudes, c);
    assert next[..|next|-1] == claudes[..|claudes|-1];
  }

  lemma NextHands(claudes: seq<Claude>, c: Claude)
    requires c.lines == []
    ensures Handed(claudes + [c]) == Handed(claudes)
  {
    assert (claudes + [c])[..|claudes|] == claudes;
    assert Handed(claudes) + [] == Handed(claudes);
  }

  // -------------------------------------------------------------- hibernator

  const SIGTERM := 15
  const STOP_TIMEOUT := 10_000 // milliseconds

  datatype Exit = Exit(code: int, failed: bool)

  /** What Run waits for: a line (or the end) of the SDK's stdin, a signal,
      output of Claude, its exit, a tick. */
  datatype Input = Stdin | Signal(sig: int) | Output(bytes: string) | Exited(exit: Exit) | Tick

  datatype Moment = Moment(input: Input, now: int)

  class Hibernator {
    const argv: seq<string>
    const lines: seq<Line> // the SDK's
    const idle: int        // milliseconds
    const tracker: Tracker
    const writer: LineWriter
    var claudes: seq<Claude>
    var running: bool
    var next: nat            // lines read
    var waiting: seq<Line>   // read since SIGTERM, for the Claude after this
    var eof: bool            // the SDK's stdin has ended
    var stopping: Option<int> // the time of the idle timer's SIGTERM
    var ending: bool         // Run is over when Claude is
    var code: int            // of the Claude stopped last
    var result: Option<Exit> // Run's
    ghost var trace: Trace
    ghost var cut: bool      // a signal came while Claude was being stopped

    /** The tracker, the writer and the Claudes agree on the conversation. */
    ghost predicate Agree(stopped: bool)
      reads this, tracker, writer
    {
      && writer.tracker == tracker && writer.UpTo(trace) && claudes != []
      && Follow(tracker.parse, claudes, running, trace)
      && After(tracker.parse, trace).stopping == stopped
      && (running ==> writer.buf == Rest(Current(claudes).output))
    }

    /** Every line read has been handed over, in order, or waits for the next Claude. */
    ghost predicate Kept()
      reads this
    {
      next <= |lines| && Handed(claudes) + waiting == lines[..next]
    }

    /** Nothing waits but while Claude is being stopped, and nothing is lost
        unless a signal ended a Claude that was. */
    ghost predicate Phases()
      reads this
    {
      && (waiting != [] ==> if result.None? then stopping.Some? else cut)
      && (result.None? && cut ==> stopping.Some? && ending)
      && (ending && stopping.Some? ==> cut)
      && (result.None? ==> (stopping.Some? ==> running) && (ending ==> running))
      && (result.None? && eof ==> running && (ending || stopping.Some?) && next == |lines|)
    }

    ghost predicate Valid()
      reads this, tracker, writer
    {
      && Kept() && Phases()
      && Agree(After(tracker.parse, trace).stopping)
      && (result.None? ==> Agree(stopping.Some? || !running))
    }

    /** h.start of the first Claude. */
    constructor (parse: Parser, argv: seq<string>, lines: seq<Line>, idle: int)
      ensures Valid() && fresh(tracker) && fresh(writer) && result.None?
      ensures tracker.parse == parse && this.argv == argv && this.lines == lines && this.idle == idle
      ensures running && !eof && next == 0 && claudes == [Claude(argv, [], [], "", [], false, false)]
    {
      this.argv, this.lines, this.idle := argv, lines, idle;
      var t := new Tracker(parse);
      var w := new LineWriter(t, "");
      tracker, writer := t, w;
      claudes, running, next, waiting := [Claude(argv, [], [], "", [], false, false)], true, 0, [];
      eof, stopping, ending, code, result := false, None, false, 0, None;
      trace, cut := [], false;
      new;
      hide Replayed;
      assert claudes[..0] == [];
      assert Handed(claudes) == [];
    }

    /** send. */
    method Send(line: Line, now: int)
      requires running && Agree(false)
      modifies this`claudes, this`trace, tracker
      ensures Agree(false) && Handed(claudes) == old(Handed(claudes)) + [line]
      ensures Current(claudes).argv == old(Current(claudes).argv)
    {
      hide After, Legal, ShownText, Follow, Handed, AfterIn;
      FollowSend(tracker.parse, claudes, trace, line);
      SendHands(claudes, line);
      Append(tracker.parse, trace, Sent(line));
      AppendOther(tracker.parse, trace, Sent(line));
      tracker.In(line, now);
      var c := Current(claudes);
      claudes := WithCurrent(claudes, c.(lines := c.lines + [line]));
      trace := trace + [Sent(line)];
    }

    /** restart: the next Claude of the session, given the settings first. */
    method Start()
      requires !running && Agree(true)
      modifies this`claudes, this`running, this`trace, tracker, writer
      ensures running && Agree(false) && Handed(claudes) == old(Handed(claudes)) && |claudes| == |old(claudes)| + 1
      ensures old(claudes) < claudes && ResumesLast(tracker.parse, argv, old(trace), Current(claudes).argv)
    {
      hide After, Legal, ShownText, Follow, Handed, AfterRestart, SetupLines, Replayed, Resumed, Lines, Rest;
      SessionResumed(tracker.parse, argv, trace);
      Relaunch();
    }

    method Relaunch()
      requires !running && Agree(true)
      modifies this`claudes, this`running, this`trace, tracker, writer
      ensures running && Agree(false) && Handed(claudes) == old(Handed(claudes)) && |claudes| == |old(claudes)| + 1
      ensures old(claudes) < claudes && Current(claudes).argv == Resumed(argv, old(tracker.session))
    {
      hide After, Legal, ShownText, Follow, Handed, AfterRestart, SetupLines, Replayed;
      var resumed := ResumeArgs(argv, tracker.session);
      var setup := tracker.Restart();
      var c := Claude(resumed, setup, [], "", [], false, false);
      FollowRestart(tracker.parse, claudes, trace, c);
      NextHands(claudes, c);
      Append(tracker.parse, trace, Restart);
      AppendOther(tracker.parse, trace, Restart);
      claudes, running := claudes + [c], true;
      writer.buf := "";
      trace := trace + [Restart];
    }

    /** Something is done to Claude that is not part of the conversation. */
    method Mark(c: Claude)
      requires running && Agree(After(tracker.parse, trace).stopping)
      requires c == Current(claudes).(signals := c.signals, closed := c.closed, cancelled := c.cancelled)
      modifies this`claudes
      ensures Agree(After(tracker.parse, trace).stopping) && Handed(claudes) == old(Handed(claudes))
      ensures Current(claudes) == c && |claudes| == |old(claudes)|
    {
      hide After, Legal, ShownText, Follow, Handed, Lines, Rest;
      FollowOther(tracker.parse, claudes, running, trace, c);
      OtherHands(claudes, c);
      claudes := WithCurrent(claudes, c);
    }

    /** A line of the SDK's, or the end of them. */
    method OnStdin(now: int)
      requires Valid() && result.None? && !eof
      modifies this, tracker, writer
      ensures Valid()
      ensures next == old(next) + if old(next) < |lines| then 1 else 0
      ensures eof == (old(next) == |lines|)
      ensures result == if eof && !old(running) then Some(Exit(0, false)) else None
      ensures result.None? ==> running && stopping == old(stopping)
      ensures eof && old(running) && old(stopping.None?) ==> ending && Current(claudes).closed
    {
      hide After, Legal, ShownText, Follow, Handed, Lines, Rest;
      if next == |lines| {
        eof := true;
        if !running {
          result := Some(Exit(0, false));
        } else if stopping.None? {
          ending := true;
          Mark(Current(claudes).(closed := true));
        }
        return;
      }
      var line := lines[next];
      assert Handed(claudes) + waiting + [line] == Handed(claudes) + (waiting + [line]);
      assert waiting == [] ==> Handed(claudes) + waiting + [line] == Handed(claudes) + [line] + [];
      assert lines[..next+1] == lines[..next] + [line];
      next := next + 1;
      if stopping.Some? {
        waiting := waiting + [line];
        return;
      }
      if !running {
        Start();
      }
      Send(line, now);
    }

    method OnSignal(sig: int)
      requires Valid() && result.None?
      modifies this
      ensures Valid() && next == old(next) && eof == old(eof)
      ensures old(running) ==>
        ending && result.None? && Current(claudes).signals == old(Current(claudes).signals) + [sig]
      ensures !old(running) ==> result == Some(Exit(code, false)) && code == old(code) && claudes == old(claudes)
    {
      hide After, Legal, ShownText, Follow, Handed, Lines, Rest;
      if !running {
        result := Some(Exit(code, false));
        return;
      }
      cut := cut || stopping.Some?;
      ending := true;
      Mark(Current(claudes).(signals := Current(claudes).signals + [sig]));
    }

    /** Claude writes: its lineWriter passes on the lines the tracker shows. */
    method OnOutput(bytes: string, now: int)
      requires Valid() && result.None? && running
      modifies this, tracker, writer
      ensures Valid() && result.None? && next == old(next) && eof == old(eof)
      ensures Current(claudes).output == old(Current(claudes).output) + bytes
    {
      hide After, Legal, ShownText, Follow, Handed, Lines, Rest, Gots;
      var c := Current(claudes);
      FollowOutput(tracker.parse, claudes, trace, bytes);
      OtherHands(claudes, c.(output := c.output + bytes));
      writer.Write(bytes, now, trace);
      claudes := WithCurrent(claudes, c.(output := c.output + bytes));
      trace := trace + Gots(Lines(Rest(c.output) + bytes));
    }

    /** Claude ends: what it left unended is passed on first. */
    method FlushOutput(now: int)
      requires Agree(After(tracker.parse, trace).stopping) && running
      modifies this`running, this`trace, writer, tracker
      ensures Agree(old(After(tracker.parse, trace).stopping)) && !running
    {
      hide After, Legal, ShownText, Follow, Handed, Lines, Rest, Gots;
      ghost var rest := writer.buf;
      FollowExit(tracker.parse, claudes, trace);
      writer.Flush(now, trace);
      trace := trace + if rest == "" then [] else [Got(rest, false)];
      running := false;
    }

    /** The lines read while Claude stopped go to the next one, in order. */
    method SendWaiting(now: int)
      requires !running && Agree(true) && Kept() && waiting != []
      modifies this`claudes, this`running, this`trace, this`waiting, tracker, writer
      ensures running && Agree(false) && Kept() && waiting == []
    {
      hide After, Legal, ShownText, Follow, Handed, Lines, Rest;
      Start();
      ghost var before := Handed(claudes);
      var i := 0;
      while i < |waiting|
        invariant i <= |waiting| && waiting == old(waiting)
        invariant running && Agree(false) && Handed(claudes) == before + waiting[..i]
      {
        Send(waiting[i], now);
        assert waiting[..i+1] == waiting[..i] + [waiting[i]];
        i := i + 1;
      }
      assert waiting[..i] == waiting;
      waiting := [];
    }

    method OnExit(exit: Exit, now: int)
      requires Valid() && result.None? && running
      modifies this, tracker, writer
      ensures Valid() && next == old(next) && eof == old(eof)
      ensures result ==
        if old(stopping.None? || ending) then Some(exit)
        else if eof && old(waiting) == [] then Some(Exit(0, false))
        else None
      ensures result.None? ==> stopping.None? && waiting == [] && running == (old(waiting) != [])
      ensures result.None? ==> ending == eof && code == if exit.failed then 128 + SIGTERM else exit.code
      ensures result.None? && eof ==> Current(claudes).closed
    {
      hide After, Legal, ShownText, Follow, Handed, Lines, Rest;
      FlushOutput(now);
      if stopping.None? || ending {
        result := Some(exit);
        return;
      }
      OnStopped(exit, now);
    }

    /** Claude has been stopped: the lines read since start the next one. */
    method OnStopped(exit: Exit, now: int)
      requires !running && !ending && !cut && result.None? && Kept() && Agree(true) && (eof ==> next == |lines|)
      modifies this, tracker, writer
      ensures Valid() && next == old(next) && eof == old(eof)
      ensures result == if eof && old(waiting) == [] then Some(Exit(0, false)) else None
      ensures result.None? ==> stopping.None? && waiting == [] && running == (old(waiting) != [])
      ensures result.None? ==> ending == eof && code == if exit.failed then 128 + SIGTERM else exit.code
      ensures result.None? && eof ==> Current(claudes).closed
    {
      hide After, Legal, ShownText, Follow, Handed, Lines, Rest;
      stopping, code := None, exit.code;
      if exit.failed {
        code := 128 + SIGTERM;
      }
      if |waiting| > 0 {
        SendWaiting(now);
      }
      if eof {
        if !running {
          result := Some(Exit(0, false));
          return;
        }
        ending := true;
        Mark(Current(claudes).(closed := true));
      }
    }

    method OnTick(now: int)
      requires Valid() && result.None?
      modifies this
      ensures Valid() && result.None? && next == old(next) && eof == old(eof) && running == old(running) &&
        ending == old(ending)
      // A Claude at rest for the idle time, and no other, is sent SIGTERM.
      ensures stopping == if old(stopping.Some?) then old(stopping)
        else if running && !ending && AtRest(tracker.parse, old(trace)) && now - tracker.lastLine >= idle then Some(now)
        else None
      ensures Current(claudes).signals ==
        old(Current(claudes).signals) + if stopping != old(stopping) then [SIGTERM] else []
      // It is cut off if it takes too long.
      ensures running && !ending && old(stopping).Some? && now - old(stopping).value >= STOP_TIMEOUT ==>
        Current(claudes).cancelled
      ensures Current(claudes).cancelled && !old(Current(claudes).cancelled) ==>
        old(stopping).Some? && now - old(stopping).value >= STOP_TIMEOUT
    {
      hide After, Legal, ShownText, Follow, Handed, Lines, Rest, IsIdle, AtRest;
      IdleIsAtRest(tracker.parse, trace);
      if !running || ending {
        return;
      } else if stopping.Some? {
        if now - stopping.value < STOP_TIMEOUT {
          return;
        }
        Mark(Current(claudes).(cancelled := true));
      } else {
        var since, isIdle := tracker.IdleSince();
        if !isIdle || now - since < idle {
          return;
        }
        FollowStop(tracker.parse, claudes, trace);
        Append(tracker.parse, trace, Stop);
        AppendOther(tracker.parse, trace, Stop);
        trace, stopping := trace + [Stop], Some(now);
        Mark(Current(claudes).(signals := Current(claudes).signals + [SIGTERM]));
      }
    }

    /** One turn of the loop; an input that cannot come now (a line after the
        end of stdin, output of a stopped Claude) changes nothing. */
    method Step(m: Moment)
      requires Valid() && result.None?
      modifies this, tracker, writer
      ensures Valid()
    {
      hide Legal, ShownText, Handed, Lines, Rest, IsIdle, Settings, After, Follow;
      match m.input
      case Stdin =>
        if !eof {
          OnStdin(m.now);
        }
      case Signal(sig) =>
        OnSignal(sig);
      case Output(bytes) =>
        if running {
          OnOutput(bytes, m.now);
        }
      case Exited(exit) =>
        if running {
          OnExit(exit, m.now);
        }
      case Tick =>
        OnTick(m.now);
    }
  }

  /** The command line is the first one's, but for its session: that is the
      last one Claude had. */
  ghost predicate ResumesLast(parse: Parser, argv: seq<string>, t: Trace, next: seq<string>) {
    next == Others(argv, |argv|) + ["--resume=" + LastSession(parse, t)]
  }

  lemma SessionResumed(parse: Parser, argv: seq<string>, t: Trace)
    ensures ResumesLast(parse, argv, t, Resumed(argv, After(parse, t).st.session))
  {
    hide Resumed, Others, LastSession, After;
    SessionIsLast(parse, t);
    ResumedAre(argv, After(parse, t).st.session);
  }

  lemma FollowLegal(parse: Parser, claudes: seq<Claude>, running: bool, t: Trace)
    requires Follow(parse, claudes, running, t)
    ensures Legal(parse, t)
  {
  }

  lemma FollowSettings(parse: Parser, claudes: seq<Claude>, running: bool, t: Trace)
    requires Follow(parse, claudes, running, t)
    ensures claudes != [] && SentLines(t) == Handed(claudes)
    ensures Settings(parse, Handed(claudes)) ==
      Settings(parse, Current(claudes).setup + Current(claudes).lines) == After(parse, t).st.setup
  {
    hide Legal, Settings, After, Handed;
    SameSettings(parse, t);
  }

  /** Run, on whatever comes in whatever order. No line of the SDK's is lost,
      repeated or reordered by Claude stopping and starting, unless a signal
      ends a Claude that is being stopped; the SDK sees every line the Claudes
      wrote but the answers to requests it didn't make; and every Claude has
      been given the settings of those before it. */
  method Run(parse: Parser, argv: seq<string>, lines: seq<Line>, idle: int, schedule: seq<Moment>)
    returns (h: Hibernator)
    ensures h.tracker.parse == parse && h.lines == lines && h.Valid()
    ensures h.result.Some? && h.waiting != [] ==> h.cut
    ensures h.result.None? && h.stopping.None? ==> Handed(h.claudes) == lines[..h.next]
    ensures SentLines(h.trace) == Handed(h.claudes)
    ensures h.writer.out == ShownText(parse, h.trace)
    ensures forall k | 0 <= k < |h.trace| && h.trace[k].Stop? :: AtRest(parse, h.trace[..k])
    ensures Settings(parse, Handed(h.claudes)) ==
      Settings(parse, Current(h.claudes).setup + Current(h.claudes).lines) == h.tracker.setup
  {
    hide Legal, ShownText, Handed, Lines, Rest, Settings, After, Follow, AtRest;
    h := new Hibernator(parse, argv, lines, idle);
    var i := 0;
    while i < |schedule| && h.result.None?
      invariant h.Valid() && h.tracker.parse == parse && h.lines == lines
      invariant fresh(h) && fresh(h.tracker) && fresh(h.writer)
    {
      h.Step(schedule[i]);
      i := i + 1;
    }
    assert Handed(h.claudes) + [] == Handed(h.claudes);
    FollowSettings(parse, h.claudes, h.running, h.trace);
    FollowLegal(parse, h.claudes, h.running, h.trace);
    forall k | 0 <= k < |h.trace| && h.trace[k].Stop? ensures AtRest(parse, h.trace[..k]) {
      StoppedAtRest(parse, h.trace, k);
    }
  }
}
