/** What the tracker promises over a whole conversation: every Claude that
    stands in for another has its settings, and the SDK sees each answer it
    waits for and no answer to a replayed request. */
module Conversation {
  import opened Options
  import opened Stream

  /** A line to Claude, a line from it (ended by a newline, or by its end), the stop of an idle Claude, and the
      start of the next. */
  datatype Event = Sent(line: Line) | Got(line: Line, ended: bool) | Stop | Restart

  type Trace = seq<Event>

  /** The tracker after a trace, and whether Claude is being stopped. */
  datatype Conv = Conv(st: State, stopping: bool)

  function Last(t: Trace): Event
    requires t != []
  {
    t[|t|-1]
  }

  function Init(t: Trace): Trace
    requires t != []
  {
    t[..|t|-1]
  }

  function StepOf(parse: Parser, c: Conv, e: Event): Conv {
    match e
    case Sent(line) => c.(st := AfterIn(parse, c.st, line))
    case Got(line, _) => c.(st := AfterOut(parse, c.st, line))
    case Stop => c.(stopping := true)
    case Restart => Conv(AfterRestart(parse, c.st), false)
  }

  /** What the hibernator does: only an idle Claude is stopped, it gets no line
      while it is, and only a stopped one is started again. */
  predicate Allowed(c: Conv, e: Event) {
    match e
    case Sent(_) => !c.stopping
    case Got(_, _) => true
    case Stop => !c.stopping && IsIdle(c.st)
    case Restart => c.stopping
  }

  function After(parse: Parser, t: Trace): Conv {
    if t == [] then Conv(NEW_STATE, false) else StepOf(parse, After(parse, Init(t)), Last(t))
  }

  predicate Legal(parse: Parser, t: Trace) {
    t == [] || (Legal(parse, Init(t)) && Allowed(After(parse, Init(t)), Last(t)))
  }

  lemma Append(parse: Parser, t: Trace, e: Event)
    ensures After(parse, t + [e]) == StepOf(parse, After(parse, t), e)
    ensures Legal(parse, t + [e]) <==> Legal(parse, t) && Allowed(After(parse, t), e)
  {
    assert Init(t + [e]) == t;
  }

  // ---------------------------------------------------------------- settings

  function SentLines(t: Trace): seq<Line> {
    if t == [] then []
    else SentLines(Init(t)) + if Last(t).Sent? then [Last(t).line] else []
  }

  /** The lines the Claude that runs now has been given: its setup, then the SDK's. */
  function GivenLines(parse: Parser, t: Trace): seq<Line> {
    if t == [] then []
    else match Last(t)
      case Sent(line) => GivenLines(parse, Init(t)) + [line]
      case Restart => SetupLines(After(parse, Init(t)).st.setup, Replayed())
      case _ => GivenLines(parse, Init(t))
  }

  /** What a Claude given these lines is set to, by subtype. */
  function Settings(parse: Parser, lines: seq<Line>): map<string, Line> {
    if lines == [] then map[]
    else
      var m, line := Settings(parse, lines[..|lines|-1]), lines[|lines|-1];
      if IsSetup(parse, line) then m[parse(line).value.request.value := line] else m
  }

  lemma {:induction false} SettingsConcat(parse: Parser, a: seq<Line>, b: seq<Line>)
    ensures Settings(parse, a + b) == Settings(parse, a) + Settings(parse, b)
  {
    hide Replayed;
    if b == [] {
      assert a + b == a;
    } else {
      assert (a + b)[..|a + b|-1] == a + b[..|b|-1];
      SettingsConcat(parse, a, b[..|b|-1]);
    }
  }

  /** Every line kept for a subtype sets that subtype. */
  predicate Honest(parse: Parser, setup: map<string, Line>) {
    forall sub | sub in setup :: sub in Replayed() && IsSetup(parse, setup[sub]) &&
      parse(setup[sub]).value.request.value == sub
  }

  lemma NoSettings(parse: Parser)
    ensures Settings(parse, []) == map[]
  {
  }

  lemma OneSetting(parse: Parser, setup: map<string, Line>, sub: string)
    requires Honest(parse, setup) && sub in setup
    ensures Settings(parse, [setup[sub]]) == map[sub := setup[sub]]
  {
    hide Replayed;
    assert [setup[sub]][..0] == [];
    assert Settings(parse, []) == map[];
  }

  lemma {:induction false} SettingsOfSetup(parse: Parser, setup: map<string, Line>, subtypes: seq<string>)
    requires Honest(parse, setup)
    ensures Settings(parse, SetupLines(setup, subtypes)) == map sub | sub in setup && sub in subtypes :: setup[sub]
  {
    hide Replayed, Settings, Honest;
    if subtypes == [] {
      assert Settings(parse, []) == map[] by { NoSettings(parse); }
    } else {
      var first := if subtypes[0] in setup then [setup[subtypes[0]]] else [];
      SettingsOfSetup(parse, setup, subtypes[1..]);
      SettingsConcat(parse, first, SetupLines(setup, subtypes[1..]));
      NoSettings(parse);
      if subtypes[0] in setup {
        OneSetting(parse, setup, subtypes[0]);
      }
      assert subtypes == [subtypes[0]] + subtypes[1..];
    }
  }

  /** The newest line of every subtype handed over so far is what the tracker
      keeps, and what the Claude that runs now is set to: so a restarted one
      has the settings of the one it replaces. */
  lemma {:induction false} SameSettings(parse: Parser, t: Trace)
    ensures Honest(parse, After(parse, t).st.setup)
    ensures After(parse, t).st.setup == Settings(parse, SentLines(t))
    ensures After(parse, t).st.setup == Settings(parse, GivenLines(parse, t))
  {
    hide Replayed, AfterIn, AfterOut, AfterRestart, Honest, IsSetup;
    if t == [] {
      NothingSet(parse);
    } else {
      SameSettings(parse, Init(t));
      var c := After(parse, Init(t));
      assert Last(t).Sent? || SentLines(t) == SentLines(Init(t));
      match Last(t)
      case Sent(line) =>
        SetupAfterIn(parse, c.st, line);
        SettingsAppend(parse, SentLines(Init(t)), line);
        SettingsAppend(parse, GivenLines(parse, Init(t)), line);
      case Got(line, _) =>
        SetupAfterOut(parse, c.st, line);
      case Stop =>
      case Restart =>
        SetupReplayed(parse, c.st);
    }
  }

  lemma NothingSet(parse: Parser)
    ensures Honest(parse, map[])
  {
  }

  lemma SettingsAppend(parse: Parser, lines: seq<Line>, line: Line)
    ensures Settings(parse, lines + [line]) ==
      if IsSetup(parse, line) then Settings(parse, lines)[parse(line).value.request.value := line]
      else Settings(parse, lines)
  {
    hide Replayed;
    assert (lines + [line])[..|lines|] == lines;
  }

  lemma SetupAfterIn(parse: Parser, s: State, line: Line)
    requires Honest(parse, s.setup)
    ensures AfterIn(parse, s, line).setup ==
      if IsSetup(parse, line) then s.setup[parse(line).value.request.value := line] else s.setup
    ensures Honest(parse, AfterIn(parse, s, line).setup)
  {
    hide Replayed;
  }

  lemma SetupAfterOut(parse: Parser, s: State, line: Line)
    ensures AfterOut(parse, s, line).setup == s.setup
  {
  }

  lemma SetupReplayed(parse: Parser, s: State)
    requires Honest(parse, s.setup)
    ensures AfterRestart(parse, s).setup == s.setup
    ensures Settings(parse, SetupLines(s.setup, Replayed())) == s.setup
  {
    hide Replayed;
    SettingsOfSetup(parse, s.setup, Replayed());
    assert (map sub | sub in s.setup && sub in Replayed() :: s.setup[sub]) == s.setup;
  }

  // ------------------------------------------------- the lines Claude wrote

  function GotEvents(t: Trace): seq<Event> {
    if t == [] then []
    else GotEvents(Init(t)) + if Last(t).Got? then [Last(t)] else []
  }

  /** What the SDK has seen. */
  function ShownText(parse: Parser, t: Trace): string {
    if t == [] then ""
    else if Last(t).Got? && Shown(parse, After(parse, Init(t)).st, Last(t).line) then
      ShownText(parse, Init(t)) + Last(t).line + if Last(t).ended then "\n" else ""
    else ShownText(parse, Init(t))
  }

  lemma AppendGot(parse: Parser, t: Trace, line: Line, ended: bool)
    ensures GotEvents(t + [Got(line, ended)]) == GotEvents(t) + [Got(line, ended)]
    ensures ShownText(parse, t + [Got(line, ended)]) ==
      ShownText(parse, t) + if Shown(parse, After(parse, t).st, line) then line + (if ended then "\n" else "") else ""
    ensures SentLines(t + [Got(line, ended)]) == SentLines(t) &&
      GivenLines(parse, t + [Got(line, ended)]) == GivenLines(parse, t)
  {
    assert Init(t + [Got(line, ended)]) == t;
  }

  /** The other events leave what Claude wrote and the SDK saw alone. */
  lemma AppendOther(parse: Parser, t: Trace, e: Event)
    requires !e.Got?
    ensures GotEvents(t + [e]) == GotEvents(t) && ShownText(parse, t + [e]) == ShownText(parse, t)
    ensures SentLines(t + [e]) == SentLines(t) + if e.Sent? then [e.line] else []
    ensures GivenLines(parse, t + [e]) ==
      if e.Sent? then GivenLines(parse, t) + [e.line]
      else if e.Restart? then SetupLines(After(parse, t).st.setup, Replayed())
      else GivenLines(parse, t)
  {
    hide Replayed;
    assert Init(t + [e]) == t;
    assert Last(t + [e]) == e;
  }

  // ------------------------------------------------------------ busy and idle

  /** Claude has finished its turn: a result came after every user line. */
  ghost predicate TurnDone(parse: Parser, t: Trace) {
    forall i | 0 <= i < |t| && t[i].Sent? && IsUser(parse, t[i].line) ::
      exists j | i < j < |t| :: t[j].Got? && IsResult(parse, t[j].line)
  }

  lemma {:induction false} BusyUntilResult(parse: Parser, t: Trace)
    ensures After(parse, t).st.busy <==> !TurnDone(parse, t)
  {
    hide Replayed;
    if t == [] {
    } else {
      var u := Init(t);
      BusyUntilResult(parse, u);
      if Last(t).Sent? && IsUser(parse, Last(t).line) {
        assert t[|t|-1].Sent?;
      } else if Last(t).Got? && IsResult(parse, Last(t).line) {
        assert t[|t|-1].Got?;
      } else {
        assert After(parse, t).st.busy == After(parse, u).st.busy;
        SameTurn(parse, t);
      }
    }
  }

  lemma SameTurn(parse: Parser, t: Trace)
    requires t != [] && !(Last(t).Sent? && IsUser(parse, Last(t).line)) &&
      !(Last(t).Got? && IsResult(parse, Last(t).line))
    ensures TurnDone(parse, t) <==> TurnDone(parse, Init(t))
  {
    var u := Init(t);
    assert forall i | 0 <= i < |u| :: u[i] == t[i];
    if TurnDone(parse, t) {
      forall i | 0 <= i < |u| && u[i].Sent? && IsUser(parse, u[i].line)
        ensures exists j | i < j < |u| :: u[j].Got? && IsResult(parse, u[j].line)
      {
        assert t[i].Sent?;
        var j :| i < j < |t| && t[j].Got? && IsResult(parse, t[j].line);
        assert u[j].Got?;
      }
    } else {
      var i :| 0 <= i < |t| && t[i].Sent? && IsUser(parse, t[i].line) &&
        forall j | i < j < |t| :: !(t[j].Got? && IsResult(parse, t[j].line));
      assert u[i].Sent?;
      assert forall j | i < j < |u| :: u[j] == t[j];
    }
  }

  // ------------------------------------------------------- what is under way

  /** What keeps a Claude from being idle: a turn, a background task by its ID,
      background tasks by their number, a question of Claude's to the SDK and
      a request of the SDK's to Claude; and the session that it must have. */
  datatype Matter = Turn | Task(id: string) | Tasks | Question(id: string) | Request(id: string) | Session

  predicate IsSystem(parse: Parser, line: Line, subtype: string) {
    parse(line).Some? && parse(line).value.kind == "system" && parse(line).value.subtype == subtype
  }

  predicate IsAnswerTo(parse: Parser, line: Line, id: string) {
    IsAnswer(parse, line) && parse(line).value.response.value == id
  }

  /** The last event of t begins the matter. A restarted Claude is given the
      newest request of each setting again. */
  predicate Begins(parse: Parser, t: Trace, m: Matter)
    requires t != []
  {
    match Last(t)
    case Sent(line) =>
      || (m.Turn? && IsUser(parse, line))
      || (m.Request? && IsRequest(parse, line) && parse(line).value.requestId == m.id)
    case Got(line, _) =>
      || (m.Task? && IsSystem(parse, line, "task_started") && parse(line).value.taskId == m.id)
      || (m.Tasks? && IsSystem(parse, line, "background_tasks_changed") && parse(line).value.tasks > 0)
      || (m.Question? && IsRequest(parse, line) && parse(line).value.requestId == m.id)
      || (m.Session? && IsSystem(parse, line, "init") && parse(line).value.session != "")
    case Restart => m.Request? && m.id in Replays(parse, SentLines(t))
    case Stop => false
  }

  /** The event ends the matter, if it was under way. */
  predicate Ends(parse: Parser, e: Event, m: Matter) {
    match e
    case Sent(line) =>
      || (m.Question? && IsAnswerTo(parse, line, m.id))
      || (m.Request? && IsCancel(parse, line) && parse(line).value.requestId == m.id)
    case Got(line, _) =>
      || (m.Turn? && IsResult(parse, line))
      || (m.Task? && IsSystem(parse, line, "task_notification") && parse(line).value.taskId == m.id)
      || (m.Tasks? && IsSystem(parse, line, "background_tasks_changed"))
      || (m.Request? && IsAnswerTo(parse, line, m.id))
      || (m.Session? && IsSystem(parse, line, "init"))
    case Restart => m.Task? || m.Tasks? || m.Question? || m.Request?
    case Stop => false
  }

  /** The matter began at some event, and none since has ended it. */
  ghost predicate UnderWay(parse: Parser, t: Trace, m: Matter) {
    exists i | 0 < i <= |t| :: Begins(parse, t[..i], m) && NoneEnds(parse, t, i, m)
  }

  ghost predicate NoneEnds(parse: Parser, t: Trace, i: nat, m: Matter)
    requires i <= |t|
  {
    forall j | i <= j < |t| :: !Ends(parse, t[j], m)
  }

  lemma UnderWayMore(parse: Parser, t: Trace, m: Matter)
    requires t != []
    ensures UnderWay(parse, t, m) <==>
      Begins(parse, t, m) || (UnderWay(parse, Init(t), m) && !Ends(parse, Last(t), m))
  {
    hide Begins, Ends;
    var u := Init(t);
    assert t[..|t|] == t;
    assert forall i | 0 < i <= |u| :: u[..i] == t[..i];
    if Begins(parse, t, m) {
      assert NoneEnds(parse, t, |t|, m);
    }
    if UnderWay(parse, u, m) && !Ends(parse, Last(t), m) {
      var i :| 0 < i <= |u| && Begins(parse, u[..i], m) && NoneEnds(parse, u, i, m);
      assert Begins(parse, t[..i], m) && NoneEnds(parse, t, i, m);
    }
    if UnderWay(parse, t, m) && !Begins(parse, t, m) {
      var i :| 0 < i <= |t| && Begins(parse, t[..i], m) && NoneEnds(parse, t, i, m);
      assert i < |t|;
      assert Begins(parse, u[..i], m) && NoneEnds(parse, u, i, m);
      assert !Ends(parse, t[|t|-1], m);
    }
  }

  /** The session that Claude last said it has. */
  function LastSession(parse: Parser, t: Trace): string {
    if t == [] then ""
    else if Last(t).Got? && IsSystem(parse, Last(t).line, "init") then parse(Last(t).line).value.session
    else LastSession(parse, Init(t))
  }

  lemma {:induction false} SessionIsLast(parse: Parser, t: Trace)
    ensures After(parse, t).st.session == LastSession(parse, t)
  {
    hide Replayed, SetupLines, RequestIds;
    if t != [] {
      SessionIsLast(parse, Init(t));
    }
  }

  /** Whether the tracker takes the matter to be under way. */
  predicate Tracked(s: State, m: Matter) {
    match m
    case Turn => s.busy
    case Task(id) => id in s.running
    case Tasks => s.tasks > 0
    case Question(id) => id in s.toSDK
    case Request(id) => id in s.toClaude
    case Session => s.session != ""
  }

  /** Over every conversation, the tracker knows exactly what is under way. */
  lemma {:induction false} TracksAll(parse: Parser, t: Trace, m: Matter)
    ensures Tracked(After(parse, t).st, m) <==> UnderWay(parse, t, m)
  {
    hide Replayed, UnderWay, Begins, Ends, Tracked, AfterIn, AfterOut, AfterRestart, Replays;
    if t == [] {
      NothingTracked(parse, m);
    } else {
      var st := After(parse, Init(t)).st;
      TracksAll(parse, Init(t), m);
      UnderWayMore(parse, t, m);
      match Last(t)
      case Sent(line) => TracksSent(parse, t, st, line, m);
      case Got(line, ended) => TracksGot(parse, t, st, line, m);
      case Stop => assert !Begins(parse, t, m) && !Ends(parse, Last(t), m) by { TracksStop(parse, t, m); }
      case Restart =>
        SameSettings(parse, Init(t));
        TracksRestart(parse, t, st, m);
    }
  }

  lemma NothingTracked(parse: Parser, m: Matter)
    ensures !Tracked(NEW_STATE, m) && !UnderWay(parse, [], m)
  {
  }

  lemma TracksStop(parse: Parser, t: Trace, m: Matter)
    requires t != [] && Last(t).Stop?
    ensures !Begins(parse, t, m) && !Ends(parse, Last(t), m)
  {
  }

  lemma TracksSent(parse: Parser, t: Trace, st: State, line: Line, m: Matter)
    requires t != [] && Last(t) == Sent(line)
    ensures Tracked(AfterIn(parse, st, line), m) <==>
      Begins(parse, t, m) || (Tracked(st, m) && !Ends(parse, Last(t), m))
  {
    hide Replayed;
  }

  lemma TracksGot(parse: Parser, t: Trace, st: State, line: Line, m: Matter)
    requires t != [] && Last(t).Got? && Last(t).line == line
    ensures Tracked(AfterOut(parse, st, line), m) <==>
      Begins(parse, t, m) || (Tracked(st, m) && !Ends(parse, Last(t), m))
  {
  }

  lemma TracksRestart(parse: Parser, t: Trace, st: State, m: Matter)
    requires t != [] && Last(t).Restart? && st.setup == Settings(parse, SentLines(Init(t)))
    ensures Tracked(AfterRestart(parse, st), m) <==>
      Begins(parse, t, m) || (Tracked(st, m) && !Ends(parse, Last(t), m))
  {
    hide Replayed, Settings, SetupLines, RequestIds;
    assert SentLines(t) == SentLines(Init(t));
  }

  /** The conversation is at rest: it has a session, and nothing is under way. */
  ghost predicate AtRest(parse: Parser, t: Trace) {
    UnderWay(parse, t, Session) && forall m: Matter | !m.Session? :: !UnderWay(parse, t, m)
  }

  /** Idle is what the tracker calls exactly the conversations at rest. */
  lemma IdleIsAtRest(parse: Parser, t: Trace)
    ensures IsIdle(After(parse, t).st) <==> AtRest(parse, t)
  {
    hide After, UnderWay;
    var s := After(parse, t).st;
    forall m: Matter ensures Tracked(s, m) <==> UnderWay(parse, t, m) {
      TracksAll(parse, t, m);
    }
    IdleIsUntracked(s);
    hide Tracked, IsIdle;
  }

  lemma IdleIsUntracked(s: State)
    ensures IsIdle(s) <==> Tracked(s, Session) && forall m: Matter | !m.Session? :: !Tracked(s, m)
  {
    if Tracked(s, Session) && forall m: Matter | !m.Session? :: !Tracked(s, m) {
      assert !Tracked(s, Turn) && !Tracked(s, Tasks);
      forall id ensures id !in s.running && id !in s.toSDK && id !in s.toClaude {
        assert !Tracked(s, Task(id)) && !Tracked(s, Question(id)) && !Tracked(s, Request(id));
      }
    }
  }

  /** So in every conversation the hibernator can have, a Claude is stopped only
      at rest. */
  lemma {:induction false} StoppedAtRest(parse: Parser, t: Trace, k: nat)
    requires Legal(parse, t) && k < |t| && t[k].Stop?
    ensures AtRest(parse, t[..k])
    decreases |t|
  {
    hide AtRest;
    if k == |t| - 1 {
      IdleIsAtRest(parse, Init(t));
    } else {
      StoppedAtRest(parse, Init(t), k);
      assert Init(t)[..k] == t[..k];
    }
  }

  // ------------------------------------------------------------------ answers

  /** The two sides: the requests the SDK ever made, those whose answer it
      waits for, and those replayed to the Claude that runs now that it hasn't
      answered. */
  datatype Sides = Sides(asked: set<string>, waits: set<string>, replays: set<string>)

  function SidesSent(parse: Parser, s: Sides, line: Line): Sides {
    if IsRequest(parse, line) then
      var id := parse(line).value.requestId;
      s.(asked := s.asked + {id}, waits := s.waits + {id})
    else if IsCancel(parse, line) then s.(waits := s.waits - {parse(line).value.requestId})
    else s
  }

  function SidesGot(parse: Parser, s: Sides, st: State, line: Line): Sides {
    if IsAnswer(parse, line) then
      var id := parse(line).value.response.value;
      s.(replays := s.replays - {id},
         waits := if Shown(parse, st, line) then s.waits - {id} else s.waits)
    else s
  }

  function SidesRestarted(parse: Parser, s: Sides, st: State): Sides {
    s.(replays := RequestIds(parse, SetupLines(st.setup, Replayed())))
  }

  function SidesAfter(parse: Parser, t: Trace): Sides {
    if t == [] then Sides({}, {}, {})
    else
      var s, c := SidesAfter(parse, Init(t)), After(parse, Init(t));
      match Last(t)
      case Sent(line) => SidesSent(parse, s, line)
      case Got(line, _) => SidesGot(parse, s, c.st, line)
      case Stop => s
      case Restart => SidesRestarted(parse, s, c.st)
  }

  /** The SDK uses a request ID once, and cancels only what it waits for. */
  predicate WellBehaved(parse: Parser, t: Trace) {
    t == [] || (
      var s := SidesAfter(parse, Init(t));
      && WellBehaved(parse, Init(t))
      && match Last(t)
         case Sent(line) =>
           && (IsRequest(parse, line) ==> parse(line).value.requestId !in s.asked)
           && (IsCancel(parse, line) ==> parse(line).value.requestId in s.waits)
         case _ => true)
  }

  ghost predicate InStep(parse: Parser, c: Conv, s: Sides) {
    && c.st.swallow == s.replays
    && c.st.toClaude == s.waits + s.replays
    && s.waits !! s.replays && s.replays <= s.asked
    && (forall sub | sub in c.st.setup && parse(c.st.setup[sub]).Some? ::
          parse(c.st.setup[sub]).value.requestId in s.asked)
    && (c.stopping ==> s.waits == {} && s.replays == {})
  }

  lemma {:induction false} SetupIdsKnown(parse: Parser, setup: map<string, Line>, subtypes: seq<string>,
    asked: set<string>)
    requires forall sub | sub in setup && parse(setup[sub]).Some? :: parse(setup[sub]).value.requestId in asked
    ensures RequestIds(parse, SetupLines(setup, subtypes)) <= asked
  {
    if subtypes == [] {
    } else {
      SetupIdsKnown(parse, setup, subtypes[1..], asked);
    }
  }

  /** The tracker is in step with both sides after every such trace. */
  lemma {:induction false} StaysInStep(parse: Parser, t: Trace)
    requires Legal(parse, t) && WellBehaved(parse, t)
    ensures InStep(parse, After(parse, t), SidesAfter(parse, t))
  {
    hide Replayed;
    if t == [] {
    } else {
      StaysInStep(parse, Init(t));
      var c, s := After(parse, Init(t)), SidesAfter(parse, Init(t));
      hide InStep, AfterIn, AfterOut, AfterRestart, SidesSent, SidesGot, SidesRestarted;
      match Last(t)
      case Sent(line) => SentInStep(parse, c, s, line);
      case Got(line, _) => GotInStep(parse, c, s, line);
      case Stop => StopInStep(parse, c, s);
      case Restart => RestartInStep(parse, c, s);
    }
  }

  lemma SentInStep(parse: Parser, c: Conv, s: Sides, line: Line)
    requires InStep(parse, c, s) && !c.stopping
    requires IsRequest(parse, line) ==> parse(line).value.requestId !in s.asked
    requires IsCancel(parse, line) ==> parse(line).value.requestId in s.waits
    ensures InStep(parse, c.(st := AfterIn(parse, c.st, line)), SidesSent(parse, s, line))
  {
    hide Replayed;
    var st := AfterIn(parse, c.st, line);
    if IsRequest(parse, line) {
      assert st.toClaude == (s.waits + {parse(line).value.requestId}) + s.replays;
    } else if IsCancel(parse, line) {
      assert st.toClaude == (s.waits - {parse(line).value.requestId}) + s.replays;
    }
  }

  lemma GotInStep(parse: Parser, c: Conv, s: Sides, line: Line)
    requires InStep(parse, c, s)
    ensures InStep(parse, c.(st := AfterOut(parse, c.st, line)), SidesGot(parse, s, c.st, line))
  {
  }

  lemma StopInStep(parse: Parser, c: Conv, s: Sides)
    requires InStep(parse, c, s) && IsIdle(c.st)
    ensures InStep(parse, c.(stopping := true), s)
  {
    assert s.waits <= c.st.toClaude && s.replays <= c.st.toClaude;
  }

  lemma RestartInStep(parse: Parser, c: Conv, s: Sides)
    requires InStep(parse, c, s) && c.stopping
    ensures InStep(parse, Conv(AfterRestart(parse, c.st), false), SidesRestarted(parse, s, c.st))
  {
    hide Replayed;
    SetupIdsKnown(parse, c.st.setup, Replayed(), s.asked);
  }

  /** A Claude is stopped only when the SDK waits for no answer, no answer is
      left to hide, and its turn is done. */
  lemma StopLosesNothing(parse: Parser, t: Trace)
    requires t != [] && Last(t).Stop? && Legal(parse, t) && WellBehaved(parse, t)
    ensures SidesAfter(parse, t).waits == {} && After(parse, t).st.swallow == {}
    ensures TurnDone(parse, t)
  {
    hide Replayed;
    StaysInStep(parse, t);
    BusyUntilResult(parse, t);
  }

  // A stop with an answer left to hide.

  /** The requests a Claude started after these lines is given again. */
  function Replays(parse: Parser, sent: seq<Line>): set<string> {
    RequestIds(parse, SetupLines(Settings(parse, sent), Replayed()))
  }

  /** A request that sets something up for a session. */
  predicate SetsUp(parse: Parser, line: Line) {
    && parse(line).Some? && parse(line).value.kind == "control_request" && parse(line).value.request.Some?
    && IsSettingName(parse(line).value.request.value)
  }

  predicate IsSettingName(sub: string) {
    sub in
      {"initialize", "mcp_set_servers", "set_model", "set_permission_mode", "set_max_thinking_tokens",
       "apply_flag_settings", "update_settings", "set_mcp_permission_mode_override", "set_cwd", "channel_enable",
       "set_chrome_browser_hints"}
  }

  predicate SetsSame(parse: Parser, a: Line, b: Line) {
    SetsUp(parse, a) && SetsUp(parse, b) && parse(a).value.request == parse(b).value.request
  }

  /** Line k sets something up, and none after it sets the same. */
  ghost predicate IsNewest(parse: Parser, sent: seq<Line>, k: nat) {
    k < |sent| && SetsUp(parse, sent[k]) && forall j | k < j < |sent| :: !SetsSame(parse, sent[k], sent[j])
  }

  lemma SetupIsThose(parse: Parser, line: Line)
    ensures IsSetup(parse, line) <==> SetsUp(parse, line)
  {
  }

  lemma {:induction false} NewestIsKept(parse: Parser, sent: seq<Line>, k: nat)
    requires IsNewest(parse, sent, k)
    ensures var sub := parse(sent[k]).value.request.value;
      sub in Settings(parse, sent) && Settings(parse, sent)[sub] == sent[k]
  {
    hide Replayed, IsSettingName;
    var last := sent[|sent|-1];
    SetupIsThose(parse, last);
    assert IsSetup(parse, last) <==> SetsUp(parse, last);
    if k < |sent| - 1 {
      assert !SetsSame(parse, sent[k], sent[|sent|-1]);
      NewestIsKept(parse, sent[..|sent|-1], k);
    }
  }

  lemma {:induction false} KeptIsNewest(parse: Parser, sent: seq<Line>, sub: string) returns (k: nat)
    requires sub in Settings(parse, sent)
    ensures IsNewest(parse, sent, k) && Settings(parse, sent)[sub] == sent[k]
    ensures parse(sent[k]).value.request == Some(sub)
  {
    hide Replayed, IsSettingName;
    var last := sent[|sent|-1];
    SetupIsThose(parse, last);
    if IsSetup(parse, last) && parse(last).value.request.value == sub {
      k := |sent| - 1;
    } else {
      k := KeptIsNewest(parse, sent[..|sent|-1], sub);
    }
  }

  lemma {:induction false} SetupMembers(setup: map<string, Line>, subtypes: seq<string>, line: Line)
    ensures line in SetupLines(setup, subtypes) <==> exists sub :: sub in subtypes && sub in setup && setup[sub] == line
  {
    if subtypes != [] {
      SetupMembers(setup, subtypes[1..], line);
      assert subtypes == [subtypes[0]] + subtypes[1..];
    }
  }

  /** A restarted Claude is given again exactly the newest request of each setting. */
  lemma ReplaysAre(parse: Parser, sent: seq<Line>, id: string)
    ensures id in Replays(parse, sent) <==>
      exists k: nat :: IsNewest(parse, sent, k) && parse(sent[k]).value.requestId == id
  {
    hide Replayed, Settings, SetupLines, IsSettingName;
    var lines := SetupLines(Settings(parse, sent), Replayed());
    if id in Replays(parse, sent) {
      var line :| line in lines && parse(line).Some? && parse(line).value.requestId == id;
      SetupMembers(Settings(parse, sent), Replayed(), line);
      var sub :| sub in Replayed() && sub in Settings(parse, sent) && Settings(parse, sent)[sub] == line;
      var k := KeptIsNewest(parse, sent, sub);
    }
    if k: nat :| IsNewest(parse, sent, k) && parse(sent[k]).value.requestId == id {
      NewestIsKept(parse, sent, k);
      SetupIsThose(parse, sent[k]);
      NewestReplayed(parse, sent[k]);
      SetupMembers(Settings(parse, sent), Replayed(), sent[k]);
      assert sent[k] in lines;
    }
  }

  lemma NewestReplayed(parse: Parser, line: Line)
    requires IsSetup(parse, line)
    ensures parse(line).Some? && parse(line).value.request.Some? && parse(line).value.request.value in Replayed()
  {
    hide Replayed;
  }

  /** The replayed requests no Claude has answered since. */
  function Owed(parse: Parser, t: Trace): set<string> {
    if t == [] then {}
    else
      var owed := Owed(parse, Init(t));
      match Last(t)
      case Restart => owed + Replays(parse, SentLines(t))
      case Got(line, _) => if IsAnswer(parse, line) then owed - {parse(line).value.response.value} else owed
      case _ => owed
  }

  /** The replayed requests the SDK cancelled while they were unanswered, that
      still are and haven't been made or replayed again. */
  function Abandoned(parse: Parser, t: Trace): set<string> {
    if t == [] then {}
    else
      var left := Abandoned(parse, Init(t));
      match Last(t)
      case Sent(line) =>
        if IsCancel(parse, line) then left + ({parse(line).value.requestId} * Owed(parse, Init(t)))
        else if IsRequest(parse, line) then left - {parse(line).value.requestId}
        else left
      case Got(line, _) => if IsAnswer(parse, line) then left - {parse(line).value.response.value} else left
      case Restart => left - Replays(parse, SentLines(t))
      case Stop => left
  }

  lemma {:induction false} AbandonedExact(parse: Parser, t: Trace)
    requires Legal(parse, t)
    ensures var c := After(parse, t);
      && c.st.swallow == Owed(parse, t) && c.st.swallow - c.st.toClaude == Abandoned(parse, t)
      && (c.stopping ==> c.st.toClaude == {})
  {
    hide Replayed, Settings, SetupLines, RequestIds, IsSetup, GivenLines, AfterIn, AfterOut, AfterRestart;
    if t != [] {
      AbandonedExact(parse, Init(t));
      SameSettings(parse, Init(t));
      var c := After(parse, Init(t));
      match Last(t)
      case Sent(line) => AbandonedSent(parse, c.st, line);
      case Got(line, _) => AbandonedGot(parse, c.st, line);
      case Stop =>
      case Restart =>
        assert SentLines(t) == SentLines(Init(t));
        AbandonedRestart(parse, c.st);
    }
  }

  lemma AbandonedSent(parse: Parser, st: State, line: Line)
    ensures var n := AfterIn(parse, st, line);
      && n.swallow == st.swallow
      && n.swallow - n.toClaude ==
        if IsCancel(parse, line) then (st.swallow - st.toClaude) + ({parse(line).value.requestId} * st.swallow)
        else if IsRequest(parse, line) then (st.swallow - st.toClaude) - {parse(line).value.requestId}
        else st.swallow - st.toClaude
  {
    hide Replayed;
  }

  lemma AbandonedGot(parse: Parser, st: State, line: Line)
    ensures var n := AfterOut(parse, st, line);
      && (st.toClaude == {} ==> n.toClaude == {})
      && (if IsAnswer(parse, line) then
            var id := parse(line).value.response.value;
            n.swallow == st.swallow - {id} && n.swallow - n.toClaude == (st.swallow - st.toClaude) - {id}
          else n.swallow == st.swallow && n.toClaude == st.toClaude)
  {
  }

  lemma AbandonedRestart(parse: Parser, st: State)
    ensures var n, ids := AfterRestart(parse, st), RequestIds(parse, SetupLines(st.setup, Replayed()));
      n.swallow == st.swallow + ids &&
      (st.toClaude == {} ==> n.swallow - n.toClaude == (st.swallow - st.toClaude) - ids)
  {
    hide Replayed, RequestIds, SetupLines;
  }

  /** Whatever the SDK does, a Claude is stopped with an answer left to hide if
      and only if the SDK has cancelled a replayed request before its answer. */
  lemma StopHides(parse: Parser, t: Trace)
    requires t != [] && Last(t).Stop? && Legal(parse, t)
    ensures After(parse, t).st.swallow == {} <==> Abandoned(parse, t) == {}
  {
    hide Replayed;
    AbandonedExact(parse, t);
  }

  /** The SDK sees an answer if and only if it isn't to a replayed request, and
      so sees every answer it waits for. */
  lemma AnswersShown(parse: Parser, t: Trace, line: Line, ended: bool)
    requires Legal(parse, t + [Got(line, ended)]) && WellBehaved(parse, t + [Got(line, ended)]) && IsAnswer(parse, line)
    ensures var id, s := parse(line).value.response.value, SidesAfter(parse, t);
      && (Shown(parse, After(parse, t).st, line) <==> id !in s.replays)
      && (id in s.waits ==>
            Shown(parse, After(parse, t).st, line) && id !in SidesAfter(parse, t + [Got(line, ended)]).waits)
  {
    hide Replayed;
    assert Init(t + [Got(line, ended)]) == t;
    StaysInStep(parse, t);
  }

  /** Whatever the SDK does, a line is kept from it if and only if it answers a
      replayed request that no Claude has answered since. */
  lemma HiddenAre(parse: Parser, t: Trace, line: Line)
    requires Legal(parse, t)
    ensures Shown(parse, After(parse, t).st, line) <==>
      !(IsAnswer(parse, line) && parse(line).value.response.value in Owed(parse, t))
  {
    hide Replayed;
    AbandonedExact(parse, t);
  }

  /** A run of states for a trace that doesn't begin it. */
  predicate Follows(parse: Parser, t: Trace, cs: seq<Conv>) {
    && |cs| == |t| + 1 && cs[0] == Conv(NEW_STATE, false)
    && forall i | 0 <= i < |t| :: Allowed(cs[i], t[i]) && cs[i+1] == StepOf(parse, cs[i], t[i])
  }

  lemma {:induction false} FollowsIsAfter(parse: Parser, t: Trace, cs: seq<Conv>)
    requires Follows(parse, t, cs)
    ensures Legal(parse, t) && After(parse, t) == cs[|t|]
  {
    hide StepOf, Allowed;
    if t != [] {
      FollowsIsAfter(parse, Init(t), cs[..|t|]);
    }
  }

  /** Without the last condition an answer can be left to hide: an SDK that
      cancels its answered initialize lets the next Claude be stopped before
      that has answered the replay. */
  lemma CancelOfAnswered(parse: Parser, ask: Line, init: Line, answer: Line, cancel: Line)
    requires parse(ask) == Some(Message("control_request", "", "", "1", Some("initialize"), None, "", 0))
    requires parse(init) == Some(Message("system", "init", "session", "", None, None, "", 0))
    requires parse(answer) == Some(Message("control_response", "", "", "", None, Some("1"), "", 0))
    requires parse(cancel) == Some(Message("control_cancel_request", "", "", "1", None, None, "", 0))
    ensures var t := [Sent(ask), Got(init, true), Got(answer, true), Stop, Restart, Sent(cancel), Stop];
      Legal(parse, t) && After(parse, t).st.swallow == {"1"}
  {
    hide AfterIn, AfterOut, AfterRestart, After, Legal, Replayed, SetupLines, RequestIds, IsSetup;
    var setup: map<string, Line> := map["initialize" := ask];
    var c1 := NEW_STATE.(toClaude := {"1"}, setup := setup);
    var c2 := c1.(session := "session");
    var c3 := c2.(toClaude := {});
    var c5 := c3.(toClaude := {"1"}, swallow := {"1"});
    var c6 := c3.(swallow := {"1"});
    CancelStep1(parse, ask, setup);
    CancelStep5(parse, ask, setup, c3);
    CancelSteps(parse, init, answer, cancel, c1, c2, c5);
    FollowsIsAfter(parse, [Sent(ask), Got(init, true), Got(answer, true), Stop, Restart, Sent(cancel), Stop],
      [Conv(NEW_STATE, false), Conv(c1, false), Conv(c2, false), Conv(c3, false), Conv(c3, true), Conv(c5, false),
        Conv(c6, false), Conv(c6, true)]);
  }

  lemma CancelStep1(parse: Parser, ask: Line, setup: map<string, Line>)
    requires parse(ask) == Some(Message("control_request", "", "", "1", Some("initialize"), None, "", 0))
    requires setup == map["initialize" := ask]
    ensures AfterIn(parse, NEW_STATE, ask) == NEW_STATE.(toClaude := {"1"}, setup := setup)
  {
    assert Replayed()[0] == "initialize";
  }

  lemma CancelStep5(parse: Parser, ask: Line, setup: map<string, Line>, st: State)
    requires parse(ask) == Some(Message("control_request", "", "", "1", Some("initialize"), None, "", 0))
    requires setup == map["initialize" := ask] && st == NEW_STATE.(setup := setup, session := "session")
    ensures AfterRestart(parse, st) == st.(toClaude := {"1"}, swallow := {"1"})
  {
    OnlyInitialize(setup, Replayed());
    assert RequestIds(parse, [ask]) == {"1"};
  }

  lemma CancelSteps(parse: Parser, init: Line, answer: Line, cancel: Line, c1: State, c2: State, c5: State)
    requires parse(init) == Some(Message("system", "init", "session", "", None, None, "", 0))
    requires parse(answer) == Some(Message("control_response", "", "", "", None, Some("1"), "", 0))
    requires parse(cancel) == Some(Message("control_cancel_request", "", "", "1", None, None, "", 0))
    requires c2.toClaude == {"1"} && c2.swallow == {} && c5.toClaude == {"1"}
    ensures AfterOut(parse, c1, init) == c1.(session := "session")
    ensures AfterOut(parse, c2, answer) == c2.(toClaude := {})
    ensures AfterIn(parse, c5, cancel) == c5.(toClaude := {})
  {
    hide Replayed;
  }

  lemma OnlyInitialize(setup: map<string, Line>, subtypes: seq<string>)
    requires setup.Keys == {"initialize"} && subtypes != [] && subtypes[0] == "initialize" &&
      "initialize" !in subtypes[1..]
    ensures SetupLines(setup, subtypes) == [setup["initialize"]]
  {
    NoneSet(setup, subtypes[1..]);
  }

  lemma NoneSet(setup: map<string, Line>, subtypes: seq<string>)
    requires forall sub | sub in subtypes :: sub !in setup
    ensures SetupLines(setup, subtypes) == []
  {
  }
}
