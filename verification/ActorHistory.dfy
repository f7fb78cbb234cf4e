/** An actor's life as its history tells it: every crash is remembered, every
    field has one rule, and what the actor does is read off them. The fields
    the actor keeps (internal/actor: actor.go, idle.go, exec.go, changes.go),
    with its crashes forgotten after a while, come to the same. */
module ActorHistory {
  import opened Options
  import opened ActorState

  datatype Past = Past(
    addr: string,
    awake: bool,
    execs: set<nat>,
    jobs: set<nat>,
    next: nat,
    begun: int,
    closed: int,
    lease: Option<int>,
    prewoken: bool,
    watching: bool,
    deaths: seq<int>,   // since a person's last Wake
    clock: int)

  // ------------------------------------------------------- what comes of an op

  /** The wake the op makes: a pre-wake leaves an awake box alone. */
  function WakeIn(h: Past, op: Op): Option<Waking> {
    match op
    case Asked(w) => Some(w)
    case Exec(w, _) => Some(w)
    case Prewake(w) => if h.awake then None else Some(w)
    case _ => None
  }

  /** The box is taken to be up: it answered somewhere else than where it didn't. */
  predicate Answers(h: Past, w: Waking) {
    h.addr != "" && h.addr != w.stale
  }

  /** The deaths known by then. A person's Wake forgets the others, and an
      address that didn't answer is one. */
  function DeathsBy(h: Past, op: Op): seq<int> {
    var all := if op.Asked? then [] else h.deaths;
    match WakeIn(h, op)
    case None => all
    case Some(w) => if w.known && !Answers(h, w) && w.stale != "" then all + [w.now] else all
  }

  /** The driver is asked: of a known environment's box that isn't up and
      hasn't died three times in the last five minutes. */
  predicate IsAsked(h: Past, op: Op) {
    var w := WakeIn(h, op);
    w.Some? && w.value.known && !Answers(h, w.value) && CountAfter(DeathsBy(h, op), w.value.now - 300_000) < 3
  }

  predicate Fails(h: Past, op: Op) {
    IsAsked(h, op) && WakeIn(h, op).value.addr.None?
  }

  /** The box is up afterwards. */
  predicate ComesUp(h: Past, op: Op) {
    var w := WakeIn(h, op);
    w.Some? && w.value.known && (Answers(h, w.value) || (IsAsked(h, op) && w.value.addr.Some?))
  }

  /** When a box with nothing but jobs running is to sleep: at the end of its
      lease if it has one and no jobs; or else once the last command's start
      and the last one's end are both long enough ago. */
  function SleepAt(h: Past, idle: Idle): int {
    if h.lease.Some? && h.jobs == {} then h.lease.value
    else if h.closed + idle.agent >= h.begun + idle.human then h.closed + idle.agent
    else h.begun + idle.human
  }

  predicate IsDue(h: Past, idle: Idle, now: int) {
    h.awake && h.execs == {} && now >= SleepAt(h, idle)
  }

  /** The box is stopped, or it is tried. */
  predicate Stopping(h: Past, idle: Idle, op: Op) {
    op.Stop? || (op.Timer? && IsDue(h, idle, op.now))
  }

  predicate Sleeps(h: Past, idle: Idle, op: Op) {
    Stopping(h, idle, op) && op.slept
  }

  // -------------------------------------------------------- one rule a field

  function Addr(h: Past, idle: Idle, op: Op): string {
    if IsAsked(h, op) then (if Fails(h, op) then "" else WakeIn(h, op).value.addr.value)
    else if Stopping(h, idle, op) then "" else h.addr
  }

  predicate Awake(h: Past, idle: Idle, op: Op) {
    IsAsked(h, op) || (h.awake && !Sleeps(h, idle, op))
  }

  /** Commands, which count until they end or the box stops. */
  function Execs(h: Past, idle: Idle, op: Op): set<nat> {
    if Sleeps(h, idle, op) then {}
    else if op.Exec? && !op.job && ComesUp(h, op) then h.execs + {h.next + 1}
    else if op.End? then h.execs - {op.n} else h.execs
  }

  function Jobs(h: Past, idle: Idle, op: Op): set<nat> {
    if Sleeps(h, idle, op) then {}
    else if op.Exec? && op.job && ComesUp(h, op) then h.jobs + {h.next + 1}
    else if op.End? then h.jobs - {op.n} else h.jobs
  }

  /** When the box was last put to use: a command began, a person woke it, its
      workspace was written to while it was up, or it started. */
  function OpenedAt(h: Past, op: Op): int {
    if (op.Exec? || op.Asked?) && ComesUp(h, op) then op.w.now + op.w.took
    else if IsAsked(h, op) && !h.awake then WakeIn(h, op).value.now
    else if op.Touch? && op.known && h.addr != "" then op.now
    else h.begun
  }

  /** When a use of it last ended: a command did, a person woke it, it started,
      or it couldn't be put to sleep. */
  function ClosedAt(h: Past, idle: Idle, op: Op): int {
    if op.Asked? && ComesUp(h, op) then op.w.now + op.w.took
    else if IsAsked(h, op) && !h.awake then WakeIn(h, op).value.now
    else if op.End? && op.n in h.execs then op.now
    else if op.Timer? && Stopping(h, idle, op) && !op.slept then op.now + op.took
    else h.closed
  }

  /** Set by a pre-wake, from when it asked or else from when the box was up,
      and by a command that was the last and asked for it; ended by the next
      use and by a stop. */
  function Lease(h: Past, idle: Idle, op: Op): Option<int> {
    if Sleeps(h, idle, op) then None
    else if (op.Exec? || op.Asked?) && ComesUp(h, op) then None
    else if op.Prewake? && !h.awake then
      if ComesUp(h, op) then Some(op.w.now + op.w.took + idle.prewake)
      else if IsAsked(h, op) then Some(op.w.now + idle.prewake) else None
    else if op.End? && op.sleep && h.execs == {op.n} then Some(op.now + op.after)
    else h.lease
  }

  /** A pre-wake's lease that hasn't ended. */
  predicate Prewoken(h: Past, idle: Idle, op: Op) {
    if op.Prewake? && !h.awake && ComesUp(h, op) then true
    else h.prewoken && !Sleeps(h, idle, op) && !((op.Exec? || op.Asked?) && ComesUp(h, op))
  }

  predicate Watching(h: Past, idle: Idle, op: Op) {
    !Stopping(h, idle, op) && (h.watching || (IsAsked(h, op) && !Fails(h, op) && WakeIn(h, op).value.watched))
  }

  function Clock(h: Past, op: Op): int {
    match op
    case End(_, _, _, now) => now
    case Touch(_, now) => now
    case Timer(now, _, took) => now + took
    case Stop(_) => h.clock
    case _ => if WakeIn(h, op).Some? then op.w.now + op.w.took else h.clock
  }

  function Onward(h: Past, idle: Idle, op: Op): Past {
    Past(Addr(h, idle, op), Awake(h, idle, op), Execs(h, idle, op), Jobs(h, idle, op),
      if op.Exec? && ComesUp(h, op) then h.next + 1 else h.next,
      OpenedAt(h, op), ClosedAt(h, idle, op), Lease(h, idle, op), Prewoken(h, idle, op), Watching(h, idle, op),
      DeathsBy(h, op) + (if Fails(h, op) then [WakeIn(h, op).value.now + WakeIn(h, op).value.took] else []),
      Clock(h, op))
  }

  function History(h: Past, idle: Idle, ops: seq<Op>): Past {
    if ops == [] then h else Onward(History(h, idle, ops[..|ops|-1]), idle, ops[|ops|-1])
  }

  /** The clock doesn't go back. */
  predicate InOrder(h: Past, idle: Idle, ops: seq<Op>) {
    ops == [] || (
      var n := History(h, idle, ops[..|ops|-1]);
      InOrder(h, idle, ops[..|ops|-1]) && IsOp(ops[|ops|-1]) && Start(ops[|ops|-1], n.clock) >= n.clock)
  }

  function Fold(s: State, idle: Idle, ops: seq<Op>): State {
    if ops == [] then s else After(Fold(s, idle, ops[..|ops|-1]), idle, ops[|ops|-1])
  }

  // -------------------------------------------------------------- the two agree

  /** The actor's fields are as its history tells; of its deaths it has those of
      the last five minutes. */
  ghost predicate Tells(h: Past, s: State) {
    && s.addr == h.addr && s.awake == h.awake && s.execs == h.execs && s.jobs == h.jobs && s.next == h.next
    && s.begun == h.begun && s.closed == h.closed && s.lease == h.lease && s.prewoken == h.prewoken
    && s.watching == h.watching && Remembers(s.crashes, h.deaths, h.clock)
  }

  ghost predicate Remembers(crashes: seq<int>, deaths: seq<int>, clock: int) {
    forall c | c >= clock - CRASH_WINDOW :: CountAfter(crashes, c) == CountAfter(deaths, c)
  }

  lemma RemembersLater(crashes: seq<int>, deaths: seq<int>, clock: int, now: int)
    requires Remembers(crashes, deaths, clock) && now >= clock
    ensures Remembers(crashes, deaths, now)
  {
  }

  lemma RemembersMore(crashes: seq<int>, deaths: seq<int>, clock: int, t: int)
    requires Remembers(crashes, deaths, clock)
    ensures Remembers(crashes + [t], deaths + [t], clock)
  {
    hide CountAfter;
    forall c | c >= clock - CRASH_WINDOW ensures CountAfter(crashes + [t], c) == CountAfter(deaths + [t], c) {
      CountMore(crashes, t, c);
      CountMore(deaths, t, c);
    }
  }

  lemma RemembersRecent(crashes: seq<int>, deaths: seq<int>, now: int)
    requires Remembers(crashes, deaths, now)
    ensures Remembers(Recent(crashes, now), deaths, now)
    ensures |Recent(crashes, now)| == CountAfter(deaths, now - CRASH_WINDOW)
  {
    hide CountAfter, Recent;
    forall c | c >= now - CRASH_WINDOW ensures CountAfter(Recent(crashes, now), c) == CountAfter(deaths, c) {
      RecentCount(crashes, now, c);
    }
    RecentCount(crashes, now, now - CRASH_WINDOW);
  }

  /** A wake, with deaths remembered: the driver is asked by the same rule, and
      what is remembered is. */
  lemma WakeTells(s: State, w: Waking, deaths: seq<int>, clock: int)
    requires Remembers(s.crashes, deaths, clock) && w.now >= clock
    ensures var all := if w.stale != "" then deaths + [w.now] else deaths;
      && (w.known && !IsUp(s, w) ==>
            && (AsksDriver(s, w) <==> CountAfter(all, w.now - CRASH_WINDOW) < CRASH_LIMIT)
            && Remembers(AfterWake(s, w).crashes,
                 if AsksDriver(s, w) && w.addr.None? then all + [w.now + w.took] else all, w.now + w.took))
  {
    hide CountAfter, Recent, Remembers;
    RemembersLater(s.crashes, deaths, clock, w.now);
    RemembersMore(s.crashes, deaths, w.now, w.now);
    var crashes := if w.stale != "" then s.crashes + [w.now] else s.crashes;
    var all := if w.stale != "" then deaths + [w.now] else deaths;
    RemembersRecent(crashes, all, w.now);
    var kept := Recent(crashes, w.now);
    RemembersLater(kept, all, w.now, w.now + w.took);
    RemembersMore(kept, all, w.now + w.took, w.now + w.took);
  }

  lemma TellsWake(h: Past, s: State, idle: Idle, op: Op)
    requires Tells(h, s) && Inv(s) && IsOp(op) && (op.Asked? || op.Exec?) && op.w.now >= h.clock
    ensures Tells(Onward(h, idle, op), After(s, idle, op))
  {
    hide CountAfter, Recent, Remembers;
    var w := op.w;
    var t, deaths := if op.Asked? then s.(crashes := []) else s, if op.Asked? then [] else h.deaths;
    assert Remembers([], [], h.clock) by { RemembersNone(h.clock); }
    WakeTells(t, w, deaths, h.clock);
    RemembersLater(t.crashes, deaths, h.clock, w.now + w.took);
    assert deaths + [] == deaths && forall x: int :: (deaths + [x]) + [] == deaths + [x];
  }

  lemma RemembersNone(clock: int)
    ensures Remembers([], [], clock)
  {
  }

  lemma TellsPrewake(h: Past, s: State, idle: Idle, op: Op)
    requires Tells(h, s) && Inv(s) && IsOp(op) && op.Prewake? && op.w.now >= h.clock
    ensures Tells(Onward(h, idle, op), After(s, idle, op))
  {
    hide CountAfter, Recent, Remembers;
    var w := op.w;
    WakeTells(s.(lease := Some(w.now + idle.prewake)), w, h.deaths, h.clock);
    RemembersLater(s.crashes, h.deaths, h.clock, w.now + w.took);
    assert h.deaths + [] == h.deaths;
  }

  lemma TellsOther(h: Past, s: State, idle: Idle, op: Op)
    requires Tells(h, s) && Inv(s) && !op.Asked? && !op.Exec? && !op.Prewake? && Start(op, h.clock) >= h.clock
    ensures Tells(Onward(h, idle, op), After(s, idle, op))
  {
    hide CountAfter, Remembers;
    RemembersLater(s.crashes, h.deaths, h.clock, Clock(h, op));
    assert h.deaths + [] == h.deaths;
    assert op.End? && op.n in s.execs ==> (s.execs - {op.n} == {} <==> s.execs == {op.n});
  }

  lemma TellsStep(h: Past, s: State, idle: Idle, op: Op)
    requires Tells(h, s) && Inv(s) && IsOp(op) && Start(op, h.clock) >= h.clock
    ensures Tells(Onward(h, idle, op), After(s, idle, op)) && Inv(After(s, idle, op))
  {
    hide Tells, Inv, Onward, After;
    InvKept(s, idle, op);
    if op.Asked? || op.Exec? {
      TellsWake(h, s, idle, op);
    } else if op.Prewake? {
      TellsPrewake(h, s, idle, op);
    } else {
      TellsOther(h, s, idle, op);
    }
  }

  /** In one actor's life, whatever is asked of it and whenever, its fields are
      as its history tells. */
  lemma {:induction false} HistoryTells(h: Past, s: State, idle: Idle, ops: seq<Op>)
    requires Tells(h, s) && Inv(s) && InOrder(h, idle, ops)
    ensures Tells(History(h, idle, ops), Fold(s, idle, ops)) && Inv(Fold(s, idle, ops))
  {
    hide Tells, Inv, Onward, After, IsOp, Start;
    if ops != [] {
      HistoryTells(h, s, idle, ops[..|ops|-1]);
      TellsStep(History(h, idle, ops[..|ops|-1]), Fold(s, idle, ops[..|ops|-1]), idle, ops[|ops|-1]);
    }
  }

  /** The idle timer is set for exactly the boxes that are awake with no command
      counted, if idle sleep is on, and for exactly the time their history
      gives; and that is when they are stopped. */
  lemma SleepsExactly(h: Past, s: State, idle: Idle, ops: seq<Op>, now: int)
    requires Tells(h, s) && Inv(s) && InOrder(h, idle, ops)
    ensures var n, t := History(h, idle, ops), Fold(s, idle, ops);
      && Armed(t, idle) ==
        (if n.awake && n.execs == {} && idle.agent > 0 && idle.human > 0 then Some(SleepAt(n, idle)) else None)
      && (IsIdle(t, idle, now) <==> IsDue(n, idle, now))
  {
    hide History, Fold, InOrder, Remembers;
    HistoryTells(h, s, idle, ops);
  }

  /** A box that isn't up is woken exactly if it hasn't died three times in the
      last five minutes, since a person's last Wake; whether it was found dead
      or didn't come up. */
  lemma WakesExactly(h: Past, s: State, idle: Idle, ops: seq<Op>, w: Waking)
    requires Tells(h, s) && Inv(s) && InOrder(h, idle, ops) && w.now >= History(h, idle, ops).clock
    ensures var n, t := History(h, idle, ops), Fold(s, idle, ops);
      && (IsUp(t, w) <==> n.addr != "" && n.addr != w.stale)
      && (AsksDriver(t, w) <==>
            && w.known && !(n.addr != "" && n.addr != w.stale)
            && CountAfter(n.deaths + (if w.stale != "" then [w.now] else []), w.now - 300_000) < 3)
  {
    hide History, Fold, InOrder, Remembers, CountAfter, Recent;
    HistoryTells(h, s, idle, ops);
    var n := History(h, idle, ops);
    assert n.deaths + [] == n.deaths;
    WakeTells(Fold(s, idle, ops), w, n.deaths, n.clock);
  }

  /** A new actor's history: the crashes of the last one are remembered. */
  lemma NewTells(awake: bool, crashes: seq<int>, now: int)
    ensures var t := if awake then now else 0;
      Tells(Past("", awake, {}, {}, 0, t, t, None, false, false, crashes, now), New(awake, crashes, now))
    ensures Inv(New(awake, crashes, now))
  {
    hide CountAfter;
  }

  /** A pre-wake is counted woken when it woke a sleeping box; used when a command
      or a person comes while its lease lasts, wasted when the box is stopped
      first. */
  lemma CountsTell(h: Past, s: State, idle: Idle, op: Op)
    requires Tells(h, s) && Inv(s) && IsOp(op) && Start(op, h.clock) >= h.clock
    ensures WokenBy(s, idle, op) == if op.Prewake? && !h.awake && ComesUp(h, op) then 1 else 0
    ensures UsedBy(s, op) == if h.prewoken && (op.Exec? || op.Asked?) && ComesUp(h, op) then 1 else 0
    ensures WastedBy(s, idle, op) == if h.prewoken && Sleeps(h, idle, op) then 1 else 0
  {
    hide CountAfter, Recent, Remembers;
    if op.Asked? || op.Exec? {
      var t, deaths := if op.Asked? then s.(crashes := []) else s, if op.Asked? then [] else h.deaths;
      RemembersNone(h.clock);
      WakeTells(t, op.w, deaths, h.clock);
    } else if op.Prewake? {
      WakeTells(s.(lease := Some(op.w.now + idle.prewake)), op.w, h.deaths, h.clock);
    }
  }
}
