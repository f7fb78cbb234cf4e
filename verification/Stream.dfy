/** What hibernation knows of the stream-json lines between an SDK and Claude
    (internal/hibernate/stream.go). */
module Stream {
  import opened Options

  type Line = string

  /** The fields of a line that the tracker reads. */
  datatype Message = Message(
    kind: string,
    subtype: string,
    session: string,
    requestId: string,
    request: Option<string>,  // the request's subtype
    response: Option<string>, // the ID of the request it answers
    taskId: string,
    tasks: nat)

  /** json.Unmarshal into a message: None for a line it can't read. */
  type Parser = Line -> Option<Message>

  /** replayed: the requests that set up a session, in the order a restarted
      Claude gets them. */
  function Replayed(): seq<string> {
    ["initialize",
     "mcp_set_servers",
     "set_model",
     "set_permission_mode",
     "set_max_thinking_tokens",
     "apply_flag_settings",
     "update_settings",
     "set_mcp_permission_mode_override",
     "set_cwd",
     "channel_enable",
     "set_chrome_browser_hints"]
  }

  datatype State = State(
    session: string,
    busy: bool,
    toClaude: set<string>,
    toSDK: set<string>,
    tasks: nat,
    running: set<string>,
    setup: map<string, Line>,
    swallow: set<string>)

  const NEW_STATE := State("", false, {}, {}, 0, {}, map[], {})

  // ------------------------------------------------ what the lines come to

  predicate IsUser(parse: Parser, line: Line) {
    parse(line).Some? && parse(line).value.kind == "user"
  }

  predicate IsResult(parse: Parser, line: Line) {
    parse(line).Some? && parse(line).value.kind == "result"
  }

  predicate IsRequest(parse: Parser, line: Line) {
    parse(line).Some? && parse(line).value.kind == "control_request"
  }

  predicate IsCancel(parse: Parser, line: Line) {
    parse(line).Some? && parse(line).value.kind == "control_cancel_request"
  }

  predicate IsAnswer(parse: Parser, line: Line) {
    parse(line).Some? && parse(line).value.kind == "control_response" && parse(line).value.response.Some?
  }

  /** A request that sets up a session. */
  predicate IsSetup(parse: Parser, line: Line) {
    IsRequest(parse, line) && parse(line).value.request.Some? && parse(line).value.request.value in Replayed()
  }

  function AfterIn(parse: Parser, s: State, line: Line): State {
    match parse(line)
    case None => s
    case Some(m) =>
      if m.kind == "user" then s.(busy := true)
      else if m.kind == "control_request" then
        s.(toClaude := s.toClaude + {m.requestId},
           setup := if IsSetup(parse, line) then s.setup[m.request.value := line] else s.setup)
      else if m.kind == "control_cancel_request" then s.(toClaude := s.toClaude - {m.requestId})
      else if m.kind == "control_response" && m.response.Some? then s.(toSDK := s.toSDK - {m.response.value})
      else s
  }

  function AfterOut(parse: Parser, s: State, line: Line): State {
    match parse(line)
    case None => s
    case Some(m) =>
      if m.kind == "system" then
        if m.subtype == "init" then s.(session := m.session)
        else if m.subtype == "background_tasks_changed" then s.(tasks := m.tasks)
        else if m.subtype == "task_started" then s.(running := s.running + {m.taskId})
        else if m.subtype == "task_notification" then s.(running := s.running - {m.taskId})
        else s
      else if m.kind == "result" then s.(busy := false)
      else if m.kind == "control_request" then s.(toSDK := s.toSDK + {m.requestId})
      else if m.kind == "control_response" && m.response.Some? then
        s.(toClaude := s.toClaude - {m.response.value}, swallow := s.swallow - {m.response.value})
      else s
  }

  /** The SDK may see the line: it is no answer to a replayed request. */
  predicate Shown(parse: Parser, s: State, line: Line) {
    !(IsAnswer(parse, line) && parse(line).value.response.value in s.swallow)
  }

  predicate IsIdle(s: State) {
    s.session != "" && !s.busy && s.toClaude == {} && s.toSDK == {} && s.tasks == 0 && s.running == {}
  }

  /** The newest line of each of the subtypes, in their order. */
  function SetupLines(setup: map<string, Line>, subtypes: seq<string>): seq<Line> {
    if subtypes == [] then []
    else (if subtypes[0] in setup then [setup[subtypes[0]]] else []) + SetupLines(setup, subtypes[1..])
  }

  /** The kept line of a subtype, if there is one. */
  function Kept(setup: map<string, Line>, subtype: string): seq<Line> {
    if subtype in setup then [setup[subtype]] else []
  }

  lemma SetupFirst(setup: map<string, Line>, subtype: string, rest: seq<string>)
    ensures SetupLines(setup, [subtype] + rest) == Kept(setup, subtype) + SetupLines(setup, rest)
  {
    assert ([subtype] + rest)[1..] == rest;
  }

  /** A restarted Claude is given these settings, in this order. */
  lemma ReplayOrder(setup: map<string, Line>)
    ensures SetupLines(setup, Replayed()) ==
      Kept(setup, "initialize") + (Kept(setup, "mcp_set_servers") + (Kept(setup, "set_model") +
      (Kept(setup, "set_permission_mode") + (Kept(setup, "set_max_thinking_tokens") +
      (Kept(setup, "apply_flag_settings") + (Kept(setup, "update_settings") +
      (Kept(setup, "set_mcp_permission_mode_override") + (Kept(setup, "set_cwd") +
      (Kept(setup, "channel_enable") + (Kept(setup, "set_chrome_browser_hints") + []))))))))))
  {
    ReplayedAre();
    hide SetupLines, Kept, Replayed;
    var last := ["set_chrome_browser_hints"];
    var later := ["set_cwd", "channel_enable"] + last;
    var mid := ["apply_flag_settings", "update_settings", "set_mcp_permission_mode_override"] + later;
    var first := ["mcp_set_servers", "set_model", "set_permission_mode", "set_max_thinking_tokens"] + mid;
    SetupNone(setup);
    assert last == ["set_chrome_browser_hints"] + [];
    SetupFirst(setup, "set_chrome_browser_hints", []);
    SetupFirst(setup, "channel_enable", last);
    assert later == ["set_cwd"] + (["channel_enable"] + last);
    SetupFirst(setup, "set_cwd", later[1..]);
    SetupThree(setup, "apply_flag_settings", "update_settings", "set_mcp_permission_mode_override", later);
    SetupThree(setup, "set_model", "set_permission_mode", "set_max_thinking_tokens", mid);
    assert first == ["mcp_set_servers"] + first[1..];
    assert first[1..] == ["set_model", "set_permission_mode", "set_max_thinking_tokens"] + mid;
    SetupFirst(setup, "mcp_set_servers", first[1..]);
    SetupFirst(setup, "initialize", first);
    assert Replayed() == ["initialize"] + first;
  }

  lemma ReplayedAre()
    ensures Replayed() ==
      ["initialize", "mcp_set_servers", "set_model", "set_permission_mode", "set_max_thinking_tokens",
       "apply_flag_settings", "update_settings", "set_mcp_permission_mode_override", "set_cwd", "channel_enable",
       "set_chrome_browser_hints"]
  {
  }

  lemma SetupNone(setup: map<string, Line>)
    ensures SetupLines(setup, []) == []
  {
  }

  lemma SetupThree(setup: map<string, Line>, a: string, b: string, c: string, rest: seq<string>)
    ensures SetupLines(setup, [a, b, c] + rest) ==
      Kept(setup, a) + (Kept(setup, b) + (Kept(setup, c) + SetupLines(setup, rest)))
  {
    hide SetupLines, Kept;
    assert [a, b, c] + rest == [a] + ([b] + ([c] + rest));
    SetupFirst(setup, a, [b] + ([c] + rest));
    SetupFirst(setup, b, [c] + rest);
    SetupFirst(setup, c, rest);
  }

  function RequestIds(parse: Parser, lines: seq<Line>): set<string> {
    set line | line in lines && parse(line).Some? :: parse(line).value.requestId
  }

  lemma RequestIdsAppend(parse: Parser, lines: seq<Line>, line: Line)
    ensures RequestIds(parse, []) == {}
    ensures RequestIds(parse, lines + [line]) ==
      RequestIds(parse, lines) + if parse(line).Some? then {parse(line).value.requestId} else {}
  {
  }

  function AfterRestart(parse: Parser, s: State): State {
    var ids := RequestIds(parse, SetupLines(s.setup, Replayed()));
    s.(tasks := 0, running := {}, toSDK := {}, toClaude := ids, swallow := s.swallow + ids)
  }

  // ---------------------------------------------------------------- the class

  /** stream. Its mutex makes each call atomic. */
  class Tracker {
    const parse: Parser
    var session: string
    var busy: bool
    var toClaude: set<string>
    var toSDK: set<string>
    var tasks: nat
    var running: set<string>
    var setup: map<string, Line>
    var swallow: set<string>
    var lastLine: int

    function View(): State
      reads this
    {
      State(session, busy, toClaude, toSDK, tasks, running, setup, swallow)
    }

    constructor (parse: Parser)
      ensures this.parse == parse && View() == NEW_STATE
    {
      this.parse := parse;
      session, busy, tasks, lastLine := "", false, 0, 0;
      toClaude, toSDK, running, setup, swallow := {}, {}, {}, map[], {};
    }

    method In(line: Line, now: int)
      modifies this
      ensures View() == AfterIn(parse, old(View()), line) && lastLine == now
    {
      lastLine := now;
      var m := parse(line);
      if m.None? {
        return;
      }
      var msg := m.value;
      if msg.kind == "user" {
        busy := true;
      } else if msg.kind == "control_request" {
        toClaude := toClaude + {msg.requestId};
        if msg.request.Some? && msg.request.value in Replayed() {
          setup := setup[msg.request.value := line];
        }
      } else if msg.kind == "control_cancel_request" {
        toClaude := toClaude - {msg.requestId};
      } else if msg.kind == "control_response" {
        if msg.response.Some? {
          toSDK := toSDK - {msg.response.value};
        }
      }
    }

    method Out(line: Line, now: int) returns (shown: bool)
      modifies this
      ensures View() == AfterOut(parse, old(View()), line) && lastLine == now
      ensures shown == Shown(parse, old(View()), line)
    {
      lastLine := now;
      shown := true;
      var m := parse(line);
      if m.None? {
        return;
      }
      var msg := m.value;
      if msg.kind == "system" {
        if msg.subtype == "init" {
          session := msg.session;
        } else if msg.subtype == "background_tasks_changed" {
          tasks := msg.tasks;
        } else if msg.subtype == "task_started" {
          running := running + {msg.taskId};
        } else if msg.subtype == "task_notification" {
          running := running - {msg.taskId};
        }
      } else if msg.kind == "result" {
        busy := false;
      } else if msg.kind == "control_request" {
        toSDK := toSDK + {msg.requestId};
      } else if msg.kind == "control_response" && msg.response.Some? {
        var id := msg.response.value;
        toClaude := toClaude - {id};
        if id in swallow {
          swallow := swallow - {id};
          shown := false;
        }
        assert id !in old(swallow) ==> old(swallow) - {id} == old(swallow);
      }
    }

    /** idleSince. */
    method IdleSince() returns (since: int, idle: bool)
      ensures since == lastLine && idle == IsIdle(View())
    {
      since := lastLine;
      idle := session != "" && !busy && toClaude == {} && toSDK == {} && tasks == 0 && running == {};
    }

    /** restart: the setup lines for the next Claude. */
    method Restart() returns (lines: seq<Line>)
      modifies this
      ensures View() == AfterRestart(parse, old(View())) && lastLine == old(lastLine)
      ensures lines == SetupLines(setup, Replayed()) && setup == old(setup)
    {
      tasks, running, toSDK := 0, {}, {};
      var ids;
      lines, ids := CollectSetup(parse, setup);
      toClaude, swallow := ids, swallow + ids;
    }
  }

  /** restart's loop: the setup lines, and the requests in them. */
  method CollectSetup(parse: Parser, setup: map<string, Line>) returns (lines: seq<Line>, ids: set<string>)
    ensures lines == SetupLines(setup, Replayed())
    ensures ids == RequestIds(parse, lines)
  {
    RequestIdsAppend(parse, [], "");
    hide Replayed, RequestIds, SetupLines;
    var subtypes := Replayed();
    lines, ids := [], {};
    SetupLinesStep(setup, subtypes, 0);
    for i := 0 to |subtypes|
      invariant ids == RequestIds(parse, lines)
      invariant SetupLines(setup, subtypes) == lines + SetupLines(setup, subtypes[i..])
    {
      SetupLinesStep(setup, subtypes, i);
      if subtypes[i] in setup {
        var line := setup[subtypes[i]];
        RequestIdsAppend(parse, lines, line);
        if parse(line).Some? {
          ids := ids + {parse(line).value.requestId};
        }
        lines := lines + [line];
      }
    }
    SetupLinesStep(setup, subtypes, |subtypes|);
  }

  lemma SetupLinesStep(setup: map<string, Line>, subtypes: seq<string>, i: nat)
    requires i <= |subtypes|
    ensures subtypes[0..] == subtypes && SetupLines(setup, []) == []
    ensures var rest := SetupLines(setup, subtypes[i..]);
      if i == |subtypes| then rest == [] else
        rest == (if subtypes[i] in setup then [setup[subtypes[i]]] else []) + SetupLines(setup, subtypes[i+1..])
  {
    assert i < |subtypes| ==> subtypes[i..][1..] == subtypes[i+1..];
  }

  // ------------------------------------------------------------- resumeArgs

  /** sessionFlags: whether the flag picks a session, and takes a value. */
  function SessionFlag(name: string): Option<bool> {
    if name in ["--session-id", "--resume", "-r", "--resume-session-at", "--resume-drops-turn"] then Some(true)
    else if name in ["--fork-session", "--continue", "-c"] then Some(false)
    else None
  }

  /** strings.Cut(arg, "="): what is before the first, and whether there is one. */
  function Cut(arg: string): (string, bool) {
    if arg == "" then ("", false)
    else if arg[0] == '=' then ("", true)
    else var (name, found) := Cut(arg[1..]); ([arg[0]] + name, found)
  }

  predicate PicksSession(arg: string) {
    SessionFlag(Cut(arg).0).Some?
  }

  /** The arguments from i on, without those that pick a session. */
  function KeptArgs(argv: seq<string>, i: nat): seq<string>
    decreases |argv| - i
  {
    if i >= |argv| then []
    else
      var (name, hasValue) := Cut(argv[i]);
      match SessionFlag(name)
      case None => [argv[i]] + KeptArgs(argv, i + 1)
      case Some(takesValue) => KeptArgs(argv, if takesValue && !hasValue then i + 2 else i + 1)
  }

  function Resumed(argv: seq<string>, session: string): seq<string> {
    (if argv == [] then [] else [argv[0]]) + KeptArgs(argv, 1) + ["--resume=" + session]
  }

  method ResumeArgs(argv: seq<string>, session: string) returns (out: seq<string>)
    ensures out == Resumed(argv, session)
  {
    hide SessionFlag, Cut;
    out := [];
    var i := 0;
    while i < |argv|
      invariant i == 0 ==> out == []
      invariant i > 0 ==> argv != [] && [argv[0]] + KeptArgs(argv, 1) == out + KeptArgs(argv, i)
    {
      var cut := Cut(argv[i]);
      var flag := SessionFlag(cut.0);
      if i == 0 || flag.None? {
        out := out + [argv[i]];
      } else if flag.value && !cut.1 {
        i := i + 1; // its value
      }
      i := i + 1;
    }
    out := out + ["--resume=" + session];
  }

  lemma {:induction false} KeptPickNone(argv: seq<string>, i: nat)
    ensures forall arg | arg in KeptArgs(argv, i) :: !PicksSession(arg)
    decreases |argv| - i
  {
    hide SessionFlag, Cut;
    if i < |argv| {
      KeptPickNone(argv, i + 1);
      KeptPickNone(argv, i + 2);
    }
  }

  lemma {:induction false} KeptAll(argv: seq<string>, last: string, i: nat)
    requires i <= |argv| && PicksSession(last) && Cut(last).1
    requires forall j | i <= j < |argv| :: !PicksSession(argv[j])
    ensures KeptArgs(argv + [last], i) == argv[i..]
    decreases |argv| - i
  {
    hide SessionFlag, Cut;
    if i < |argv| {
      KeptAll(argv, last, i + 1);
      assert argv[i..] == [argv[i]] + argv[i+1..];
    }
  }

  /** Resuming a resumed command line replaces its session: nothing else of it
      picks one. (Of a command line without a command it doesn't.) */
  lemma ResumeTwice(argv: seq<string>, first: string, second: string)
    ensures Resumed(Resumed(argv, first), second) == Resumed(argv, second) <==> argv != []
  {
    hide SessionFlag;
    var once := Resumed(argv, first);
    if argv == [] {
      assert once == ["--resume=" + first];
      assert |Resumed(once, second)| >= 2;
      assert |Resumed(argv, second)| == 1;
    } else {
      var kept := [argv[0]] + KeptArgs(argv, 1);
      KeptPickNone(argv, 1);
      CutResume(first);
      KeptAll(kept, "--resume=" + first, 1);
      assert once == kept + ["--resume=" + first];
      assert kept[1..] == KeptArgs(argv, 1);
    }
  }

  // What resumeArgs keeps, told of each argument.

  /** The argument picks a session: it is such a flag, or one with its value. */
  ghost predicate IsSessionFlag(arg: string) {
    exists name :: PicksIt(name) && (arg == name || name + "=" <= arg)
  }

  predicate PicksIt(name: string) {
    TakesNext(name) || name == "--fork-session" || name == "--continue" || name == "-c"
  }

  /** The flag's value is the next argument. */
  predicate TakesNext(arg: string) {
    || arg == "--session-id" || arg == "--resume" || arg == "-r"
    || arg == "--resume-session-at" || arg == "--resume-drops-turn"
  }

  lemma FlagsAre(name: string)
    ensures SessionFlag(name) == if TakesNext(name) then Some(true) else if PicksIt(name) then Some(false) else None
    ensures SessionFlag(name).Some? <==> PicksIt(name)
    ensures PicksIt(name) ==> '=' !in name
  {
  }

  /** Argument j is the value of the flag before it. The command is no flag. */
  predicate IsValue(argv: seq<string>, j: nat)
    requires j < |argv|
  {
    j >= 2 && !IsValue(argv, j - 1) && TakesNext(argv[j-1])
  }

  /** The first n arguments without the session flags and their values. */
  ghost function Others(argv: seq<string>, n: nat): seq<string>
    requires n <= |argv|
  {
    if n == 0 then []
    else
      var j := n - 1;
      Others(argv, j) + if j == 0 || (!IsValue(argv, j) && !IsSessionFlag(argv[j])) then [argv[j]] else []
  }

  lemma {:induction false} CutNone(arg: string)
    requires '=' !in arg
    ensures Cut(arg) == (arg, false)
  {
    if arg != "" {
      CutNone(arg[1..]);
      assert [arg[0]] + arg[1..] == arg;
    }
  }

  lemma {:induction false} FirstEquals(arg: string) returns (name: string, value: string)
    requires '=' in arg
    ensures arg == name + "=" + value && '=' !in name
  {
    if arg[0] == '=' {
      name, value := "", arg[1..];
      assert arg == "" + "=" + value;
    } else {
      var rest;
      rest, value := FirstEquals(arg[1..]);
      name := [arg[0]] + rest;
      assert arg == [arg[0]] + arg[1..];
      assert name + "=" + value == [arg[0]] + (rest + "=" + value);
    }
  }

  lemma CutTells(arg: string)
    ensures PicksSession(arg) <==> IsSessionFlag(arg)
    ensures TakesNext(arg) <==> SessionFlag(Cut(arg).0) == Some(true) && !Cut(arg).1
  {
    hide SessionFlag, Cut, TakesNext, PicksIt;
    FlagsAre(arg);
    if '=' in arg {
      var name, value := FirstEquals(arg);
      CutAt(name, value);
      FlagsAre(name);
      assert TakesNext(arg) ==> PicksIt(arg) by { NextPicks(arg); }
      if PicksIt(name) {
        assert name + "=" <= arg;
      }
      if other :| PicksIt(other) && (arg == other || other + "=" <= arg) {
        FlagsAre(other);
        assert other + "=" <= arg;
        SameName(name, other, arg);
      }
    } else {
      CutNone(arg);
      assert TakesNext(arg) ==> PicksIt(arg) by { NextPicks(arg); }
      assert PicksIt(arg) ==> IsSessionFlag(arg);
      assert forall other: string :: other + "=" <= arg ==> arg[|other|] == '=';
    }
  }

  lemma NextPicks(arg: string)
    ensures TakesNext(arg) ==> PicksIt(arg)
  {
  }

  lemma SameName(a: string, b: string, arg: string)
    requires '=' !in a && '=' !in b && a + "=" <= arg && b + "=" <= arg
    ensures a == b
  {
    EqualsAt(a, arg);
    EqualsAt(b, arg);
    assert a == arg[..|a|] && b == arg[..|b|];
  }

  lemma EqualsAt(name: string, arg: string)
    requires '=' !in name && name + "=" <= arg
    ensures arg[|name|] == '=' && forall i | 0 <= i < |name| :: arg[i] != '='
  {
    assert (name + "=")[|name|] == '=';
    assert forall i | 0 <= i < |name| :: arg[i] == name[i];
  }

  lemma {:induction false} KeptAreOthers(argv: seq<string>, i: nat)
    requires 1 <= i <= |argv| && (i < |argv| ==> !IsValue(argv, i))
    ensures Others(argv, |argv|) == Others(argv, i) + KeptArgs(argv, i)
    decreases |argv| - i
  {
    hide SessionFlag, Cut, IsSessionFlag, TakesNext, PicksIt;
    if i < |argv| {
      CutTells(argv[i]);
      if !TakesNext(argv[i]) || i + 1 == |argv| {
        KeptAreOthers(argv, i + 1);
        assert KeptArgs(argv, i + 1) == KeptArgs(argv, i + 2) || i + 1 < |argv|;
      } else {
        assert IsValue(argv, i + 1);
        KeptAreOthers(argv, i + 2);
        assert Others(argv, i + 2) == Others(argv, i + 1) + [] == Others(argv, i) + [] + [];
      }
    }
  }

  /** A restarted Claude's command line is the first one's without its session
      flags and their values, and the session. */
  lemma ResumedAre(argv: seq<string>, session: string)
    ensures Resumed(argv, session) == Others(argv, |argv|) + ["--resume=" + session]
  {
    hide SessionFlag, Cut, IsSessionFlag, TakesNext;
    if argv != [] {
      KeptAreOthers(argv, 1);
      assert Others(argv, 1) == Others(argv, 0) + [argv[0]] == [argv[0]];
    }
  }

  lemma CutResume(session: string)
    ensures Cut("--resume=" + session) == ("--resume", true) && PicksSession("--resume=" + session)
  {
    assert "--resume=" == "--resume" + "=";
    CutAt("--resume", session);
  }

  lemma {:induction false} CutAt(name: string, value: string)
    requires '=' !in name
    ensures Cut(name + "=" + value) == (name, true)
  {
    if name == "" {
      assert name + "=" + value == "=" + value;
    } else {
      assert (name + "=" + value)[1..] == name[1..] + "=" + value;
      assert [name[0]] + name[1..] == name;
      CutAt(name[1..], value);
    }
  }
}
