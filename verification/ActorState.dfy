/** An actor's fields and what each change makes of them (internal/actor: actor.go,
    idle.go, exec.go, changes.go). Times are milliseconds. */
module ActorState {
  import opened Options

  const CRASH_LIMIT := 3
  const CRASH_WINDOW := 300_000

  /** Idle: zero agent or human times keep boxes awake, a zero prewake turns pre-wakes off. */
  datatype Idle = Idle(agent: nat, human: nat, prewake: nat)

  datatype State = State(
    addr: string,
    awake: bool,
    execs: set<nat>,
    jobs: set<nat>,
    next: nat,
    begun: int,         // opened: when the last command started
    closed: int,        // when the last command ended
    lease: Option<int>,
    prewoken: bool,
    watching: bool,
    crashes: seq<int>)

  /** A new actor; awake if its box may have outlived the last one. */
  function New(awake: bool, crashes: seq<int>, now: int): State {
    State("", awake, {}, {}, 0, if awake then now else 0, if awake then now else 0, None, false, false, crashes)
  }

  /** The times within the crash window. */
  function Recent(ts: seq<int>, now: int): seq<int> {
    if ts == [] then []
    else Recent(ts[..|ts|-1], now) + if now - ts[|ts|-1] >= CRASH_WINDOW then [] else [ts[|ts|-1]]
  }

  /** A wake: whether the environment is there, the address that didn't
      answer, when it began, how long the driver took and what it returned. */
  datatype Waking = Waking(known: bool, stale: string, now: int, took: nat, addr: Option<string>, watched: bool)

  function Crashes(s: State, w: Waking): seq<int> {
    Recent(if w.stale != "" then s.crashes + [w.now] else s.crashes, w.now)
  }

  /** The actor knows an address, and it is not the one the caller found dead. */
  predicate IsUp(s: State, w: Waking) {
    s.addr != "" && s.addr != w.stale
  }

  /** wake asks the driver. */
  predicate AsksDriver(s: State, w: Waking) {
    w.known && !IsUp(s, w) && |Crashes(s, w)| < CRASH_LIMIT
  }

  predicate Wakes(s: State, w: Waking) {
    w.known && (IsUp(s, w) || (AsksDriver(s, w) && w.addr.Some?))
  }

  /** A wake that reached the driver. Whether or not it came to an address, the
      box now counts as awake. */
  function AfterDriver(s: State, w: Waking): State {
    var t := s.(addr := "", awake := true,
      begun := if s.awake then s.begun else w.now, closed := if s.awake then s.closed else w.now);
    if w.addr.None? then t.(crashes := s.crashes + [w.now + w.took])
    else t.(addr := w.addr.value, watching := s.watching || w.watched)
  }

  function AfterWake(s: State, w: Waking): State {
    if !w.known || IsUp(s, w) then s
    else
      var t := s.(crashes := Crashes(s, w));
      if |t.crashes| >= CRASH_LIMIT then t else AfterDriver(t, w)
  }

  function AfterStop(s: State, slept: bool): State {
    var t := s.(addr := "", watching := false);
    if slept then t.(lease := None, prewoken := false, awake := false, execs := {}, jobs := {}) else t
  }

  function AfterPrewake(s: State, w: Waking, idle: Idle): State {
    if s.awake then s
    else
      var l := s.(lease := Some(w.now + idle.prewake));
      var t := AfterWake(l, w);
      if Wakes(l, w) then t.(lease := Some(w.now + w.took + idle.prewake), prewoken := true)
      else if !t.awake then t.(lease := None)
      else t
  }

  function AfterExec(s: State, w: Waking, job: bool): State {
    var t := AfterWake(s, w);
    if !Wakes(s, w) then t
    else t.(lease := None, prewoken := false, next := t.next + 1, begun := w.now + w.took,
      execs := if job then t.execs else t.execs + {t.next + 1},
      jobs := if job then t.jobs + {t.next + 1} else t.jobs)
  }

  function AfterEnd(s: State, n: nat, sleep: bool, after: nat, now: int): State {
    if n in s.jobs then s.(jobs := s.jobs - {n})
    else if n in s.execs then
      s.(execs := s.execs - {n}, closed := now,
        lease := if sleep && s.execs - {n} == {} then Some(now + after) else s.lease)
    else s
  }

  /** Group.Wake: a person asks. */
  function AfterAsked(s: State, w: Waking): State {
    var c := s.(crashes := []);
    var t := AfterWake(c, w);
    if !Wakes(c, w) then t
    else t.(lease := None, prewoken := false, begun := w.now + w.took, closed := w.now + w.took)
  }

  function AfterTouch(s: State, known: bool, now: int): State {
    if s.addr != "" && known then s.(begun := now) else s
  }

  function Later(a: int, b: int): int {
    if a > b then a else b
  }

  /** The time at which a box without commands, or with jobs only, is put to sleep. */
  function Deadline(s: State, idle: Idle): int {
    if s.lease.Some? && s.jobs == {} then s.lease.value
    else Later(s.closed + idle.agent, s.begun + idle.human)
  }

  /** armIdle: when the idle timer fires, if at all. */
  function Armed(s: State, idle: Idle): Option<int> {
    if !s.awake || s.execs != {} || idle.agent == 0 || idle.human == 0 then None else Some(Deadline(s, idle))
  }

  predicate IsIdle(s: State, idle: Idle, now: int) {
    s.awake && s.execs == {} && now >= Deadline(s, idle)
  }

  /** sleepIfIdle: a stop that fails is tried again after another idle time. */
  function AfterTimer(s: State, idle: Idle, now: int, slept: bool, took: nat): State {
    if !IsIdle(s, idle, now) then s
    else if slept then AfterStop(s, true)
    else AfterStop(s, false).(closed := now + took)
  }

  // ---------------------------------------------------------------- invariant

  ghost predicate Inv(s: State) {
    && (s.addr != "" || s.execs != {} || s.jobs != {} || s.watching ==> s.awake)
    && s.execs !! s.jobs && (s.execs != {} ==> s.lease.None?)
    && (s.prewoken ==> s.lease.Some? && s.awake)
    && (forall n | n in s.execs || n in s.jobs :: n <= s.next)
  }

  /** One message an actor handles, or its timer. */
  datatype Op =
    | Asked(w: Waking)
    | Exec(w: Waking, job: bool)
    | End(n: nat, sleep: bool, after: nat, now: int)
    | Prewake(w: Waking)
    | Touch(known: bool, now: int)
    | Stop(slept: bool)
    | Timer(now: int, slept: bool, took: nat)

  /** Waking anew names no address that didn't answer. */
  predicate IsOp(op: Op) {
    op.Asked? || op.Prewake? ==> op.w.stale == ""
  }

  function After(s: State, idle: Idle, op: Op): State {
    match op
    case Asked(w) => AfterAsked(s, w)
    case Exec(w, job) => AfterExec(s, w, job)
    case End(n, sleep, after, now) => AfterEnd(s, n, sleep, after, now)
    case Prewake(w) => AfterPrewake(s, w, idle)
    case Touch(known, now) => AfterTouch(s, known, now)
    case Stop(slept) => AfterStop(s, slept)
    case Timer(now, slept, took) => AfterTimer(s, idle, now, slept, took)
  }

  lemma InvKept(s: State, idle: Idle, op: Op)
    requires Inv(s) && IsOp(op)
    ensures Inv(After(s, idle, op))
  {
    hide Crashes;
  }

  // ------------------------------------------------------------- pre-wakes

  /** What a step adds to the counts of pre-wakes woken, used and wasted. */
  function WokenBy(s: State, idle: Idle, op: Op): nat {
    if op.Prewake? && !s.awake && Wakes(s.(lease := Some(op.w.now + idle.prewake)), op.w) then 1 else 0
  }

  function UsedBy(s: State, op: Op): nat {
    if s.prewoken && ((op.Exec? && Wakes(s, op.w)) || (op.Asked? && Wakes(s.(crashes := []), op.w))) then 1 else 0
  }

  function WastedBy(s: State, idle: Idle, op: Op): nat {
    if s.prewoken && ((op.Stop? && op.slept) || (op.Timer? && IsIdle(s, idle, op.now) && op.slept)) then 1 else 0
  }

  lemma StepConserves(s: State, idle: Idle, op: Op)
    requires Inv(s)
    ensures (if After(s, idle, op).prewoken then 1 else 0) + UsedBy(s, op) + WastedBy(s, idle, op) ==
      (if s.prewoken then 1 else 0) + WokenBy(s, idle, op)
  {
    hide Recent;
  }

  /** The actors of a node, by box, and the counts. */
  datatype Actors = Actors(boxes: map<string, State>, woken: nat, used: nat, wasted: nat)

  /** A message or timer of a box's actor, which is started if there is none
      (with the crashes kept of the last one), or the end of one. */
  datatype Event = Handles(box: string, op: Op, crashes: seq<int>) | Ends(box: string)

  predicate MayHappen(g: Actors, e: Event) {
    if e.Handles? then IsOp(e.op)
    else e.box in g.boxes && !g.boxes[e.box].awake && g.boxes[e.box].execs == {} && g.boxes[e.box].jobs == {}
  }

  function Handling(g: Actors, e: Event): State
    requires e.Handles?
  {
    if e.box in g.boxes then g.boxes[e.box] else New(false, e.crashes, 0)
  }

  function Next(g: Actors, idle: Idle, e: Event): Actors {
    if e.Ends? then g.(boxes := g.boxes - {e.box})
    else
      var s := Handling(g, e);
      Actors(g.boxes[e.box := After(s, idle, e.op)],
        g.woken + WokenBy(s, idle, e.op), g.used + UsedBy(s, e.op), g.wasted + WastedBy(s, idle, e.op))
  }

  function Run(g: Actors, idle: Idle, events: seq<Event>): Actors {
    if events == [] then g else Next(Run(g, idle, events[..|events|-1]), idle, events[|events|-1])
  }

  predicate CanRun(g: Actors, idle: Idle, events: seq<Event>) {
    events == [] || (CanRun(g, idle, events[..|events|-1]) &&
      MayHappen(Run(g, idle, events[..|events|-1]), events[|events|-1]))
  }

  /** The boxes whose actor holds a pre-wake that hasn't ended. */
  function Holding(boxes: map<string, State>): set<string> {
    set box | box in boxes && boxes[box].prewoken
  }

  ghost predicate Conserved(g: Actors) {
    && (forall box | box in g.boxes :: Inv(g.boxes[box]))
    && g.woken == g.used + g.wasted + |Holding(g.boxes)|
  }

  lemma HoldingSet(boxes: map<string, State>, box: string, s: State)
    ensures s.prewoken ==> Holding(boxes[box := s]) == Holding(boxes) - {box} + {box}
    ensures !s.prewoken ==> Holding(boxes[box := s]) == Holding(boxes) - {box}
    ensures box in Holding(boxes) <==> box in boxes && boxes[box].prewoken
  {
  }

  lemma HoldingAfter(boxes: map<string, State>, box: string, s: State)
    ensures |Holding(boxes[box := s])| == |Holding(boxes) - {box}| + if s.prewoken then 1 else 0
    ensures |Holding(boxes)| == |Holding(boxes) - {box}| + if box in boxes && boxes[box].prewoken then 1 else 0
  {
    HoldingSet(boxes, box, s);
    hide Holding;
  }

  lemma NextConserves(g: Actors, idle: Idle, e: Event)
    requires Conserved(g) && MayHappen(g, e)
    ensures Conserved(Next(g, idle, e))
  {
    hide After, Inv, WokenBy, UsedBy, WastedBy, Holding;
    if e.Ends? {
      Asleep(g.boxes[e.box]);
      assert Holding(g.boxes - {e.box}) == Holding(g.boxes) by { HoldingLess(g.boxes, e.box); }
    } else {
      var s := Handling(g, e);
      NewInv(e.crashes);
      StepConserves(s, idle, e.op);
      InvKept(s, idle, e.op);
      HoldingAfter(g.boxes, e.box, After(s, idle, e.op));
    }
  }

  lemma HoldingLess(boxes: map<string, State>, box: string)
    requires box in boxes && !boxes[box].prewoken
    ensures Holding(boxes - {box}) == Holding(boxes)
  {
  }

  lemma Asleep(s: State)
    requires Inv(s) && !s.awake
    ensures !s.prewoken
  {
  }

  lemma NewInv(crashes: seq<int>)
    ensures Inv(New(false, crashes, 0))
  {
  }

  /** Over every run, the pre-wakes woken are those used, those wasted and
      those still held. */
  lemma {:induction false} RunConserves(g: Actors, idle: Idle, events: seq<Event>)
    requires Conserved(g) && CanRun(g, idle, events)
    ensures Conserved(Run(g, idle, events))
  {
    if events != [] {
      RunConserves(g, idle, events[..|events|-1]);
      NextConserves(Run(g, idle, events[..|events|-1]), idle, events[|events|-1]);
    }
  }

  // ------------------------------------------------------------- crash limit

  function CountAfter(ts: seq<int>, c: int): nat {
    if ts == [] then 0 else CountAfter(ts[..|ts|-1], c) + if ts[|ts|-1] > c then 1 else 0
  }

  lemma {:induction false} RecentCount(ts: seq<int>, now: int, c: int)
    requires c >= now - CRASH_WINDOW
    ensures CountAfter(Recent(ts, now), c) == CountAfter(ts, c)
    ensures |Recent(ts, now)| == CountAfter(ts, now - CRASH_WINDOW)
  {
    if ts != [] {
      var rest := ts[..|ts|-1];
      RecentCount(rest, now, c);
      var r := Recent(rest, now) + [ts[|ts|-1]];
      assert r[..|r|-1] == Recent(rest, now);
      assert Recent(rest, now) + [] == Recent(rest, now);
    }
  }

  lemma CountMore(ts: seq<int>, t: int, c: int)
    ensures CountAfter(ts + [t], c) == CountAfter(ts, c) + if t > c then 1 else 0
  {
    assert (ts + [t])[..|ts|] == ts;
  }

  ghost predicate Sorted(ts: seq<int>) {
    forall i, k | 0 <= i < k < |ts| :: ts[i] <= ts[k]
  }

  /** No span shorter than the window holds more than the limit. */
  ghost predicate Spaced(fails: seq<int>) {
    forall i, k | 0 <= i && i + CRASH_LIMIT <= k < |fails| :: fails[k] - fails[i] >= CRASH_WINDOW
  }

  /** Of the failed wakes so far, those that are not too old at this time are counted as crashes. */
  ghost predicate Counts(crashes: seq<int>, fails: seq<int>, clock: int) {
    && Sorted(fails) && Spaced(fails) && (forall i | 0 <= i < |fails| :: fails[i] <= clock)
    && (forall c | c >= clock - CRASH_WINDOW :: CountAfter(fails, c) <= CountAfter(crashes, c))
  }

  lemma ThirdLastIsOld(fails: seq<int>, c: int)
    requires Sorted(fails) && |fails| >= 3 && CountAfter(fails, c) < 3
    ensures fails[|fails|-3] <= c
  {
    var n := |fails|;
    var a := fails[..n-1];
    var b := a[..n-2];
    assert CountAfter(fails, c) == CountAfter(a, c) + if fails[n-1] > c then 1 else 0;
    assert CountAfter(a, c) == CountAfter(b, c) + if fails[n-2] > c then 1 else 0;
    assert CountAfter(b, c) >= if fails[n-3] > c then 1 else 0;
  }

  /** The driver wakes a step fails at. */
  function FailsOf(s: State, w: Waking): seq<int> {
    if AsksDriver(s, w) && w.addr.None? then [w.now + w.took] else []
  }

  lemma LaterCounts(crashes: seq<int>, fails: seq<int>, clock: int, now: int)
    requires Counts(crashes, fails, clock) && now >= clock
    ensures Counts(crashes, fails, now)
  {
  }

  /** Forgetting the old crashes, or adding one. */
  lemma RecentCounts(crashes: seq<int>, fails: seq<int>, clock: int, now: int, died: bool)
    requires Counts(crashes, fails, clock) && now >= clock
    ensures var kept := Recent(if died then crashes + [now] else crashes, now);
      Counts(kept, fails, now) && CountAfter(fails, now - CRASH_WINDOW) <= |kept|
  {
    hide CountAfter, Recent;
    var all := if died then crashes + [now] else crashes;
    forall c | c >= now - CRASH_WINDOW
      ensures CountAfter(fails, c) <= CountAfter(all, c) == CountAfter(Recent(all, now), c)
    {
      RecentCount(all, now, c);
      CountMore(crashes, now, c);
    }
    RecentCount(all, now, now - CRASH_WINDOW);
  }

  /** A failed wake that fewer crashes than the limit allowed. */
  lemma FailCounts(kept: seq<int>, fails: seq<int>, now: int, end: int)
    requires Counts(kept, fails, now) && CountAfter(fails, now - CRASH_WINDOW) <= |kept| < CRASH_LIMIT && end >= now
    ensures Counts(kept + [end], fails + [end], end)
  {
    hide CountAfter;
    if |fails| >= 3 {
      ThirdLastIsOld(fails, now - CRASH_WINDOW);
    }
    SpacedMore(fails, end, now);
    forall c | c >= end - CRASH_WINDOW ensures CountAfter(fails + [end], c) <= CountAfter(kept + [end], c) {
      assert CountAfter(fails, c) <= CountAfter(kept, c);
      CountMore(fails, end, c);
      CountMore(kept, end, c);
    }
  }

  lemma WakeCounts(s: State, w: Waking, fails: seq<int>, clock: int)
    requires Counts(s.crashes, fails, clock) && w.now >= clock
    ensures Counts(AfterWake(s, w).crashes, fails + FailsOf(s, w), w.now + w.took)
  {
    hide Counts, CountAfter, Recent;
    assert fails + [] == fails;
    LaterCounts(s.crashes, fails, clock, w.now + w.took);
    RecentCounts(s.crashes, fails, clock, w.now, w.stale != "");
    LaterCounts(Crashes(s, w), fails, w.now, w.now + w.took);
    if AsksDriver(s, w) && w.addr.None? {
      FailCounts(Crashes(s, w), fails, w.now, w.now + w.took);
    }
  }

  lemma SpacedMore(fails: seq<int>, end: int, now: int)
    requires Sorted(fails) && Spaced(fails) && now <= end && (|fails| >= 3 ==> fails[|fails|-3] <= now - CRASH_WINDOW)
    ensures Spaced(fails + [end])
  {
    var next := fails + [end];
    forall i, k | 0 <= i && i + CRASH_LIMIT <= k < |next| ensures next[k] - next[i] >= CRASH_WINDOW {
      if k == |fails| {
        assert fails[i] <= fails[|fails|-3];
      }
    }
  }

  /** One actor's life: the wakes that failed since a person's last Wake, and
      when the last command started and the last one ended. */
  datatype Life = Life(s: State, fails: seq<int>, started: Option<int>, ended: Option<int>, clock: int)

  function Start(op: Op, clock: int): int {
    match op
    case Asked(w) => w.now
    case Exec(w, _) => w.now
    case Prewake(w) => w.now
    case End(_, _, _, now) => now
    case Touch(_, now) => now
    case Timer(now, _, _) => now
    case Stop(_) => clock
  }

  function Lived(l: Life, idle: Idle, op: Op): Life {
    var n := l.(s := After(l.s, idle, op));
    match op
    case Asked(w) => n.(fails := FailsOf(l.s.(crashes := []), w), clock := w.now + w.took)
    case Exec(w, _) =>
      n.(fails := l.fails + FailsOf(l.s, w), clock := w.now + w.took,
        started := if Wakes(l.s, w) then Some(w.now + w.took) else l.started)
    case Prewake(w) => if l.s.awake then l else n.(fails := l.fails + FailsOf(l.s, w), clock := w.now + w.took)
    case End(k, _, _, now) => n.(clock := now, ended := if k in l.s.execs && k !in l.s.jobs then Some(now) else l.ended)
    case Touch(_, now) => n.(clock := now)
    case Timer(now, _, took) => n.(clock := now + took)
    case Stop(_) => n
  }

  function Lives(l: Life, idle: Idle, ops: seq<Op>): Life {
    if ops == [] then l else Lived(Lives(l, idle, ops[..|ops|-1]), idle, ops[|ops|-1])
  }

  /** The clock doesn't go back. */
  predicate InTime(l: Life, idle: Idle, ops: seq<Op>) {
    ops == [] || (InTime(l, idle, ops[..|ops|-1]) &&
      Start(ops[|ops|-1], Lives(l, idle, ops[..|ops|-1]).clock) >= Lives(l, idle, ops[..|ops|-1]).clock)
  }

  lemma LivedCounts(l: Life, idle: Idle, op: Op)
    requires Counts(l.s.crashes, l.fails, l.clock) && Start(op, l.clock) >= l.clock
    ensures var n := Lived(l, idle, op); Counts(n.s.crashes, n.fails, n.clock)
  {
    hide Counts, AfterWake, AsksDriver, Recent;
    match op
    case Asked(w) =>
      NothingCounted(w.now);
      WakeCounts(l.s.(crashes := []), w, [], w.now);
      assert [] + FailsOf(l.s.(crashes := []), w) == FailsOf(l.s.(crashes := []), w);
    case Exec(w, _) =>
      WakeCounts(l.s, w, l.fails, l.clock);
    case Prewake(w) =>
      LeaseApart(l.s, w, Some(w.now + idle.prewake));
      WakeCounts(l.s, w, l.fails, l.clock);
    case _ =>
      LaterCounts(l.s.crashes, l.fails, l.clock, Lived(l, idle, op).clock);
  }

  lemma NothingCounted(now: int)
    ensures Counts([], [], now)
  {
  }

  /** The lease is nothing to a wake. */
  lemma LeaseApart(s: State, w: Waking, lease: Option<int>)
    ensures AfterWake(s.(lease := lease), w) == AfterWake(s, w).(lease := lease) &&
      FailsOf(s.(lease := lease), w) == FailsOf(s, w)
  {
    hide Recent;
  }

  /** In one actor's life, whatever is asked of it and whenever, between two of
      a person's Wakes no span shorter than the crash window holds more than
      crashLimit failed wakes. */
  lemma {:induction false} FailsAreSpaced(l: Life, idle: Idle, ops: seq<Op>)
    requires l.fails == [] && InTime(l, idle, ops)
    ensures Spaced(Lives(l, idle, ops).fails)
    ensures var n := Lives(l, idle, ops); Counts(n.s.crashes, n.fails, n.clock)
  {
    hide Lived;
    if ops != [] {
      FailsAreSpaced(l, idle, ops[..|ops|-1]);
      LivedCounts(Lives(l, idle, ops[..|ops|-1]), idle, ops[|ops|-1]);
    }
  }

  // ---------------------------------------------------------------- idle times

  /** The actor's clocks are no earlier than the last command's start and end. */
  ghost predicate KeepsTime(l: Life) {
    && (l.started.Some? ==> l.started.value <= l.s.begun && l.started.value <= l.clock)
    && (l.ended.Some? ==> l.ended.value <= l.s.closed && l.ended.value <= l.clock)
  }

  lemma LivedKeepsTime(l: Life, idle: Idle, op: Op)
    requires KeepsTime(l) && Start(op, l.clock) >= l.clock
    ensures KeepsTime(Lived(l, idle, op))
  {
    hide Recent;
  }

  lemma {:induction false} LivesKeepsTime(l: Life, idle: Idle, ops: seq<Op>)
    requires l.started.None? && l.ended.None? && InTime(l, idle, ops)
    ensures KeepsTime(Lives(l, idle, ops))
  {
    hide Lived, Start;
    if ops != [] {
      LivesKeepsTime(l, idle, ops[..|ops|-1]);
      LivedKeepsTime(Lives(l, idle, ops[..|ops|-1]), idle, ops[|ops|-1]);
    }
  }

  /** After any run, the timer stops the box only with no command counted, and
      either the last one's start and end are as long ago as the idle times
      say, or nothing is counted at all and a lease has run out. */
  lemma SleepsOnlyIdle(l: Life, idle: Idle, ops: seq<Op>, now: int)
    requires l.started.None? && l.ended.None? && InTime(l, idle, ops)
    requires IsIdle(Lives(l, idle, ops).s, idle, now)
    ensures var n := Lives(l, idle, ops);
      && n.s.execs == {}
      && (|| (n.s.jobs == {} && n.s.lease.Some? && now >= n.s.lease.value)
          || ((n.started.Some? ==> now >= n.started.value + idle.human) &&
            (n.ended.Some? ==> now >= n.ended.value + idle.agent)))
  {
    hide Lives, InTime;
    LivesKeepsTime(l, idle, ops);
  }
}
