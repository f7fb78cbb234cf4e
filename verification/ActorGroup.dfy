/** Group.Run, do, actorOf, endExec and actor.run (internal/actor/actor.go,
    exec.go, changes.go, watch.go) as a transition system: callers look for a
    box's actor, send it their message and wait; actors start, take messages,
    call other actors, stop their watchers and end. */
module ActorGroup {
  import opened Names
  import opened Options
  import opened Forks

  /** The changes, as far as they call other actors or stop the box. */
  datatype Change =
    Create | DeleteEnv | ForkEnv | RestoreEnv | SleepBox | StopAgent | TouchBox | EndCommand | OtherChange

  /** A call made while an actor makes a change: box and change, from box and change. */
  predicate Nests(change: Change, box: string, inner: Change, target: string) {
    match change
    case DeleteEnv => (inner.DeleteEnv? && IsForkOf(target, box)) || (inner.StopAgent? && target == AgentBox(box))
    case ForkEnv => inner.Create? && IsForkOf(target, box)
    case RestoreEnv => inner.StopAgent? && target == AgentBox(box)
    case SleepBox => !IsAgentBox(box) && inner.StopAgent? && target == AgentBox(box)
    case _ => false
  }

  predicate IsForkOf(target: string, box: string) {
    ForkOf(target).Some? && ForkOf(target).value.parent == box
  }

  /** The changes that stop the box, and with it its watcher. */
  predicate Stops(change: Change) {
    change.DeleteEnv? || change.RestoreEnv? || change.SleepBox? || change.StopAgent?
  }

  /** What actorOf accepts: an environment's own box, or its agent box. */
  predicate ValidBox(box: string) {
    ValidEnvID(EnvOfBox(box))
  }

  const LONGEST := 63 + |AGENT|

  lemma BoxLength(box: string)
    requires ValidBox(box)
    ensures |box| <= LONGEST
  {
  }

  /** Every nested call is to a longer name. */
  lemma NestedIsLonger(change: Change, box: string, inner: Change, target: string)
    requires Nests(change, box, inner, target)
    ensures |target| > |box|
  {
    if IsForkOf(target, box) {
      hide ForkOf;
      ForkIDOfFork(target);
    }
  }

  datatype Waiting =
    | Finding            // asks Run for the box's actor
    | Sending(to: nat)   // offers its message to that one
    | Taken(owner: nat)     // which has it
    | Finished(answered: bool)

  /** A message. retry: do looks for the next actor when one has ended; endExec's is dropped.
      parent: the message in whose change it is sent. */
  datatype Caller =
    Caller(box: string, change: Change, retry: bool, cancelled: bool, at: Waiting, parent: Option<nat>)

  datatype Phase =
    | Ready                            // in run's select
    | Handling(c: nat, second: bool)   // second: taken in run's second select
    | Sleeping                         // sleepIfIdle
    | Deciding                         // whether to go on
    | Ending                           // run returns
    | Closed                           // done is closed
    | Gone                             // Run has heard

  /** A watcher, and the touch it makes. */
  datatype Watch = Off | On(touch: Option<nat>) | Cancelled(touch: Option<nat>)

  /** An actor; child is the nested call its change waits for. */
  datatype Actor = Actor(box: string, phase: Phase, child: Option<nat>, watch: Watch)

  datatype Entry = Begin(box: string, c: nat) | Done(box: string, c: nat)

  datatype Group = Group(
    actors: map<string, nat>, // Run's
    insts: seq<Actor>,        // every actor started
    callers: seq<Caller>,
    down: bool,               // ctx is done
    returned: bool,           // Run has returned
    log: seq<Entry>)          // changes begun and done

  predicate IsClosed(a: Actor) {
    a.phase.Closed? || a.phase.Gone?
  }

  datatype Step =
    | Call(box: string, change: Change)
    | CallEnd(i: nat)             // endExec, of a command in that actor's box
    | Cancel(c: nat)
    | Find(c: nat)
    | Refuse(c: nat)
    | Take(c: nat)
    | Lost(c: nat)
    | GiveUp(c: nat)
    | Nest(i: nat, box: string, change: Change)
    | Back(i: nat)
    | Answer(i: nat)
    | StartWatch(i: nat)
    | Touch(i: nat)
    | Touched(i: nat)
    | StopWatch(i: nat)
    | WatchEnds(i: nat)
    | Timer(i: nat)
    | Slept(i: nat)
    | Decide(i: nat, stay: bool)
    | Quit(i: nat)
    | Close(i: nat)
    | Reap(i: nat, heard: bool)   // heard: Run still hears of it
    | Shut
    | Return

  // -------------------------------------------------------------------- steps

  function WithCaller(g: Group, c: nat, at: Waiting): Group
    requires c < |g.callers|
  {
    g.(callers := g.callers[c := g.callers[c].(at := at)])
  }

  function WithPhase(g: Group, i: nat, phase: Phase): Group
    requires i < |g.insts|
  {
    g.(insts := g.insts[i := g.insts[i].(phase := phase)])
  }

  function WithWatch(g: Group, i: nat, watch: Watch): Group
    requires i < |g.insts|
  {
    g.(insts := g.insts[i := g.insts[i].(watch := watch)])
  }

  predicate IsCaller(g: Group, c: nat) { c < |g.callers| }

  predicate IsInst(g: Group, i: nat) { i < |g.insts| }

  predicate HasFinished(g: Group, c: nat) {
    c < |g.callers| && g.callers[c].at.Finished?
  }

  /** The step can be taken. */
  predicate Enabled(g: Group, s: Step) {
    match s
    case Call(box, change) => ValidBox(box) && !change.EndCommand?
    case CallEnd(i) => IsInst(g, i)
    case Cancel(c) => IsCaller(g, c) && !g.callers[c].change.EndCommand?
    case Find(c) => IsCaller(g, c) && g.callers[c].at.Finding? && !g.returned
    case Refuse(c) => IsCaller(g, c) && g.callers[c].at.Finding? && (g.returned || g.callers[c].cancelled)
    case Take(c) => IsCaller(g, c) && g.callers[c].at.Sending? && IsInst(g, g.callers[c].at.to) &&
      (g.insts[g.callers[c].at.to].phase.Ready? || g.insts[g.callers[c].at.to].phase.Deciding?)
    case Lost(c) => IsCaller(g, c) && g.callers[c].at.Sending? && IsInst(g, g.callers[c].at.to) &&
      IsClosed(g.insts[g.callers[c].at.to])
    case GiveUp(c) => IsCaller(g, c) && g.callers[c].at.Sending? && g.callers[c].cancelled
    case Nest(i, box, change) => IsInst(g, i) && g.insts[i].phase.Handling? && g.insts[i].child.None? &&
      !g.insts[i].watch.Cancelled? &&
      IsCaller(g, g.insts[i].phase.c) && ValidBox(box) &&
      Nests(g.callers[g.insts[i].phase.c].change, g.insts[i].box, change, box)
    case Back(i) => IsInst(g, i) && g.insts[i].child.Some? && HasFinished(g, g.insts[i].child.value)
    case Answer(i) => IsInst(g, i) && g.insts[i].phase.Handling? && IsCaller(g, g.insts[i].phase.c) &&
      g.insts[i].child.None? && !g.insts[i].watch.Cancelled?
    case StartWatch(i) => IsInst(g, i) && g.insts[i].phase.Handling? && g.insts[i].watch.Off?
    case Touch(i) => IsInst(g, i) && g.insts[i].watch.On? && g.insts[i].watch.touch.None?
    case Touched(i) => IsInst(g, i) && g.insts[i].watch.On? && g.insts[i].watch.touch.Some? &&
      HasFinished(g, g.insts[i].watch.touch.value)
    case StopWatch(i) => IsInst(g, i) && g.insts[i].watch.On? && g.insts[i].child.None? && StopsNow(g, i)
    case WatchEnds(i) => IsInst(g, i) && g.insts[i].watch.Cancelled? &&
      (g.insts[i].watch.touch.None? || HasFinished(g, g.insts[i].watch.touch.value))
    case Timer(i) => IsInst(g, i) && g.insts[i].phase.Ready?
    case Slept(i) => IsInst(g, i) && g.insts[i].phase.Sleeping? && !g.insts[i].watch.Cancelled?
    case Decide(i, stay) => IsInst(g, i) && g.insts[i].phase.Deciding?
    case Quit(i) => IsInst(g, i) && g.insts[i].phase.Ready? && g.down
    case Close(i) => IsInst(g, i) && g.insts[i].phase.Ending? && g.insts[i].watch.Off?
    case Reap(i, heard) => IsInst(g, i) && g.insts[i].phase.Closed? && if heard then !g.returned else g.down
    case Shut => true
    case Return => g.down
  }

  /** The actor is where it stops its watcher: in a stop, in an idle sleep or at its end. */
  predicate StopsNow(g: Group, i: nat)
    requires IsInst(g, i)
  {
    var p := g.insts[i].phase;
    p.Sleeping? || p.Ending? || (p.Handling? && IsCaller(g, p.c) && Stops(g.callers[p.c].change))
  }

  function After(g: Group, s: Step): Group
    requires Enabled(g, s)
  {
    match s
    case Call(box, change) => g.(callers := g.callers + [Caller(box, change, true, false, Finding, None)])
    case CallEnd(i) => g.(callers := g.callers + [Caller(g.insts[i].box, EndCommand, false, false, Sending(i), None)])
    case Cancel(c) => g.(callers := g.callers[c := g.callers[c].(cancelled := true)])
    case Find(c) => Found(g, c)
    case Refuse(c) => WithCaller(g, c, Finished(false))
    case Take(c) => Took(g, c)
    case Lost(c) => WithCaller(g, c, if g.callers[c].retry then Finding else Finished(false))
    case GiveUp(c) => WithCaller(g, c, Finished(false))
    case Nest(i, box, change) =>
      g.(callers := g.callers + [Caller(box, change, true, false, Finding, Some(g.insts[i].phase.c))],
         insts := g.insts[i := g.insts[i].(child := Some(|g.callers|))])
    case Back(i) => g.(insts := g.insts[i := g.insts[i].(child := None)])
    case Answer(i) => Answered(g, i)
    case StartWatch(i) => WithWatch(g, i, On(None))
    case Touch(i) =>
      WithWatch(g.(callers := g.callers + [Caller(g.insts[i].box, TouchBox, true, false, Finding, None)]), i,
        On(Some(|g.callers|)))
    case Touched(i) => WithWatch(g, i, On(None))
    case StopWatch(i) => Stopping(g, i)
    case WatchEnds(i) => WithWatch(g, i, Off)
    case Timer(i) => WithPhase(g, i, Sleeping)
    case Slept(i) => WithPhase(g, i, Deciding)
    case Decide(i, stay) => WithPhase(g, i, if stay then Ready else Ending)
    case Quit(i) => WithPhase(g, i, Ending)
    case Close(i) => WithPhase(g, i, Closed)
    case Reap(i, heard) => Reaped(g, i, heard)
    case Shut => g.(down := true)
    case Return => g.(returned := true)
  }

  /** Run answers: with the box's actor, or a new one if it has none or that has ended. */
  function Found(g: Group, c: nat): Group
    requires IsCaller(g, c)
  {
    var box := g.callers[c].box;
    if box in g.actors && g.actors[box] < |g.insts| && !IsClosed(g.insts[g.actors[box]])
    then WithCaller(g, c, Sending(g.actors[box]))
    else
      var n := |g.insts|;
      WithCaller(g.(insts := g.insts + [Actor(box, Ready, None, Off)], actors := g.actors[box := n]), c, Sending(n))
  }

  function Took(g: Group, c: nat): Group
    requires IsCaller(g, c) && g.callers[c].at.Sending? && IsInst(g, g.callers[c].at.to)
  {
    var i := g.callers[c].at.to;
    WithCaller(WithPhase(g, i, Handling(c, g.insts[i].phase.Deciding?)), c, Taken(i))
      .(log := g.log + [Begin(g.insts[i].box, c)])
  }

  function Answered(g: Group, i: nat): Group
    requires IsInst(g, i) && g.insts[i].phase.Handling? && IsCaller(g, g.insts[i].phase.c)
  {
    var c := g.insts[i].phase.c;
    WithCaller(WithPhase(g, i, if g.insts[i].phase.second then Ready else Deciding), c, Finished(true))
      .(log := g.log + [Done(g.insts[i].box, c)])
  }

  /** cancel(), then the wait for the watcher. */
  function Stopping(g: Group, i: nat): Group
    requires IsInst(g, i) && g.insts[i].watch.On?
  {
    var t := g.insts[i].watch.touch;
    var h := WithWatch(g, i, Cancelled(t));
    if t.Some? && IsCaller(g, t.value)
    then h.(callers := g.callers[t.value := g.callers[t.value].(cancelled := true)])
    else h
  }

  function Reaped(g: Group, i: nat, heard: bool): Group
    requires IsInst(g, i)
  {
    var box := g.insts[i].box;
    var h := WithPhase(g, i, Gone);
    if heard && box in g.actors && g.actors[box] == i then h.(actors := g.actors - {box}) else h
  }

  // ---------------------------------------------------------------- invariant

  ghost predicate ActorOk(g: Group, i: nat)
    requires IsInst(g, i)
  {
    var a := g.insts[i];
    && ValidBox(a.box)
    // An actor that hasn't ended is the one in Run's map.
    && (!IsClosed(a) ==> a.box in g.actors && g.actors[a.box] == i)
    && (a.phase.Handling? ==>
          IsCaller(g, a.phase.c) && g.callers[a.phase.c].at == Taken(i) && g.callers[a.phase.c].box == a.box)
    && (a.child.Some? ==>
          a.phase.Handling? && IsCaller(g, a.child.value) &&
          |g.callers[a.child.value].box| > |a.box| && !a.watch.Cancelled?)
    && (!a.watch.Off? ==> !IsClosed(a))
    && (!a.watch.Off? && a.watch.touch.Some? ==>
          var t := a.watch.touch.value;
          IsCaller(g, t) && g.callers[t].change.TouchBox? && g.callers[t].box == a.box &&
            (a.watch.Cancelled? ==> g.callers[t].cancelled))
    && (a.watch.Cancelled? ==> StopsNow(g, i))
  }

  ghost predicate CallerOk(g: Group, c: nat)
    requires IsCaller(g, c)
  {
    var m := g.callers[c];
    && ValidBox(m.box)
    && (m.at.Sending? ==> IsInst(g, m.at.to) && g.insts[m.at.to].box == m.box)
    && (m.at.Taken? ==>
          IsInst(g, m.at.owner) && g.insts[m.at.owner].phase.Handling? && g.insts[m.at.owner].phase.c == c)
  }

  ghost predicate Ok(g: Group) {
    && (forall i | 0 <= i < |g.insts| :: ActorOk(g, i))
    && (forall c | 0 <= c < |g.callers| :: CallerOk(g, c))
    && (forall box | box in g.actors :: g.actors[box] < |g.insts| && g.insts[g.actors[box]].box == box)
  }

  lemma CallerStepOk(g: Group, s: Step)
    requires Ok(g) && Enabled(g, s) && (s.Call? || s.CallEnd? || s.Cancel? || s.Refuse? || s.Lost? || s.GiveUp?)
    ensures Ok(After(g, s))
  {
    hide ValidBox, Nests, ForkOf, IsForkOf, Found, Took, Answered, Stopping, Reaped;
    var h := After(g, s);
    assert s.CallEnd? ==> ActorOk(g, s.i);
    forall i | 0 <= i < |h.insts| ensures ActorOk(h, i) {
      assert i < |g.insts| ==> ActorOk(g, i);
    }
    forall c | 0 <= c < |h.callers| ensures CallerOk(h, c) {
      assert c < |g.callers| ==> CallerOk(g, c);
    }
  }

  lemma FindOk(g: Group, s: Step)
    requires Ok(g) && Enabled(g, s) && (s.Find?)
    ensures Ok(After(g, s))
  {
    hide ValidBox, Nests, ForkOf, IsForkOf, Took, Answered, Stopping, Reaped;
    var h := After(g, s);
    assert CallerOk(g, s.c);
    forall i | 0 <= i < |h.insts| ensures ActorOk(h, i) {
      assert i < |g.insts| ==> ActorOk(g, i);
    }
    forall c | 0 <= c < |h.callers| ensures CallerOk(h, c) {
      assert c < |g.callers| ==> CallerOk(g, c);
    }
  }

  lemma TakeOk(g: Group, s: Step)
    requires Ok(g) && Enabled(g, s) && (s.Take?)
    ensures Ok(After(g, s))
  {
    hide ValidBox, Nests, ForkOf, IsForkOf, Found, Answered, Stopping, Reaped;
    var h := After(g, s);
    assert CallerOk(g, s.c);
    forall i | 0 <= i < |h.insts| ensures ActorOk(h, i) {
      assert i < |g.insts| ==> ActorOk(g, i);
    }
    forall c | 0 <= c < |h.callers| ensures CallerOk(h, c) {
      assert c < |g.callers| ==> CallerOk(g, c);
    }
  }

  lemma AnswerOk(g: Group, s: Step)
    requires Ok(g) && Enabled(g, s) && (s.Answer?)
    ensures Ok(After(g, s))
  {
    hide ValidBox, Nests, ForkOf, IsForkOf, Found, Took, Stopping, Reaped;
    var h := After(g, s);
    assert ActorOk(g, s.i);
    forall i | 0 <= i < |h.insts| ensures ActorOk(h, i) {
      assert i < |g.insts| ==> ActorOk(g, i);
    }
    forall c | 0 <= c < |h.callers| ensures CallerOk(h, c) {
      assert c < |g.callers| ==> CallerOk(g, c);
    }
  }

  lemma NestOk(g: Group, s: Step)
    requires Ok(g) && Enabled(g, s) && (s.Nest? || s.Back?)
    ensures Ok(After(g, s))
  {
    hide ValidBox, Nests, ForkOf, IsForkOf, Found, Took, Answered, Stopping, Reaped;
    var h := After(g, s);
    assert ActorOk(g, s.i);
    if s.Nest? {
      NestedIsLonger(g.callers[g.insts[s.i].phase.c].change, g.insts[s.i].box, s.change, s.box);
    }
    forall i | 0 <= i < |h.insts| ensures ActorOk(h, i) {
      assert i < |g.insts| ==> ActorOk(g, i);
    }
    forall c | 0 <= c < |h.callers| ensures CallerOk(h, c) {
      assert c < |g.callers| ==> CallerOk(g, c);
    }
  }

  lemma TouchOk(g: Group, s: Step)
    requires Ok(g) && Enabled(g, s) && (s.Touch? || s.Touched?)
    ensures Ok(After(g, s))
  {
    hide ValidBox, Nests, ForkOf, IsForkOf, Found, Took, Answered, Stopping, Reaped;
    var h := After(g, s);
    assert ActorOk(g, s.i);
    forall i | 0 <= i < |h.insts| ensures ActorOk(h, i) {
      assert i < |g.insts| ==> ActorOk(g, i);
    }
    forall c | 0 <= c < |h.callers| ensures CallerOk(h, c) {
      assert c < |g.callers| ==> CallerOk(g, c);
    }
  }

  lemma WatchStepOk(g: Group, s: Step)
    requires Ok(g) && Enabled(g, s) && (s.StartWatch? || s.WatchEnds?)
    ensures Ok(After(g, s))
  {
    hide ValidBox, Nests, ForkOf, IsForkOf, Found, Took, Answered, Stopping, Reaped;
    var h := After(g, s);
    assert ActorOk(g, s.i);
    forall i | 0 <= i < |h.insts| ensures ActorOk(h, i) {
      assert i < |g.insts| ==> ActorOk(g, i);
    }
    forall c | 0 <= c < |h.callers| ensures CallerOk(h, c) {
      assert c < |g.callers| ==> CallerOk(g, c);
    }
  }

  lemma StopWatchOk(g: Group, s: Step)
    requires Ok(g) && Enabled(g, s) && s.StopWatch?
    ensures Ok(After(g, s))
  {
    hide ValidBox, Nests, IsForkOf, ActorOk, CallerOk;
    var h := After(g, s);
    assert ActorOk(g, s.i);
    forall i | 0 <= i < |h.insts| ensures ActorOk(h, i) {
      assert ActorOk(g, i);
      StopWatchActor(g, s.i, i);
    }
    forall c | 0 <= c < |h.callers| ensures CallerOk(h, c) {
      assert CallerOk(g, c);
      StopWatchCaller(g, s.i, c);
    }
  }

  lemma StopWatchActor(g: Group, i: nat, k: nat)
    requires Enabled(g, StopWatch(i)) && IsInst(g, k) && ActorOk(g, i) && ActorOk(g, k)
    ensures IsInst(Stopping(g, i), k) && ActorOk(Stopping(g, i), k)
  {
    hide ValidBox, Nests, IsForkOf;
  }

  lemma StopWatchCaller(g: Group, i: nat, c: nat)
    requires Enabled(g, StopWatch(i)) && IsCaller(g, c) && CallerOk(g, c)
    ensures IsCaller(Stopping(g, i), c) && CallerOk(Stopping(g, i), c)
  {
    hide ValidBox, Nests, IsForkOf;
  }

  lemma PhaseStepOk(g: Group, s: Step)
    requires Ok(g) && Enabled(g, s) && (s.Timer? || s.Slept? || s.Decide? || s.Quit?)
    ensures Ok(After(g, s))
  {
    hide ValidBox, Nests, ForkOf, IsForkOf, Found, Took, Answered, Stopping, Reaped;
    var h := After(g, s);
    forall i | 0 <= i < |h.insts| ensures ActorOk(h, i) {
      assert i < |g.insts| ==> ActorOk(g, i);
    }
    forall c | 0 <= c < |h.callers| ensures CallerOk(h, c) {
      assert c < |g.callers| ==> CallerOk(g, c);
    }
  }

  lemma EndStepOk(g: Group, s: Step)
    requires Ok(g) && Enabled(g, s) && (s.Close? || s.Shut? || s.Return?)
    ensures Ok(After(g, s))
  {
    hide ValidBox, Nests, ForkOf, IsForkOf, Found, Took, Answered, Stopping, Reaped;
    var h := After(g, s);
    forall i | 0 <= i < |h.insts| ensures ActorOk(h, i) {
      assert i < |g.insts| ==> ActorOk(g, i);
    }
    forall c | 0 <= c < |h.callers| ensures CallerOk(h, c) {
      assert c < |g.callers| ==> CallerOk(g, c);
    }
  }

  lemma ReapOk(g: Group, s: Step)
    requires Ok(g) && Enabled(g, s) && (s.Reap?)
    ensures Ok(After(g, s))
  {
    hide ValidBox, Nests, ForkOf, IsForkOf, Found, Took, Answered, Stopping;
    var h := After(g, s);
    forall i | 0 <= i < |h.insts| ensures ActorOk(h, i) {
      assert i < |g.insts| ==> ActorOk(g, i);
    }
    forall c | 0 <= c < |h.callers| ensures CallerOk(h, c) {
      assert c < |g.callers| ==> CallerOk(g, c);
    }
  }

  /** Every step keeps the invariant. */
  lemma StepOk(g: Group, s: Step)
    requires Ok(g) && Enabled(g, s)
    ensures Ok(After(g, s))
  {
    hide Ok, Enabled, After;
    match s
    case Find(_) => FindOk(g, s);
    case Take(_) => TakeOk(g, s);
    case Reap(_, _) => ReapOk(g, s);
    case Answer(_) => AnswerOk(g, s);
    case Nest(_, _, _) => NestOk(g, s);
    case Back(_) => NestOk(g, s);
    case Touch(_) => TouchOk(g, s);
    case Touched(_) => TouchOk(g, s);
    case StartWatch(_) => WatchStepOk(g, s);
    case StopWatch(_) => StopWatchOk(g, s);
    case WatchEnds(_) => WatchStepOk(g, s);
    case _ =>
      if s.Call? || s.CallEnd? || s.Cancel? || s.Refuse? || s.Lost? || s.GiveUp? {
        CallerStepOk(g, s);
      } else if s.Timer? || s.Slept? || s.Decide? || s.Quit? {
        PhaseStepOk(g, s);
      } else {
        EndStepOk(g, s);
      }
  }

  // --------------------------------------------------------------------- runs

  /** Run's start: an actor for each box that is running. */
  function Started(boxes: seq<string>): Group
    requires forall i, k | 0 <= i < |boxes| && 0 <= k < |boxes| && boxes[i] == boxes[k] :: i == k
  {
    Group(map i | 0 <= i < |boxes| :: boxes[i] := i,
      seq(|boxes|, i requires 0 <= i < |boxes| => Actor(boxes[i], Ready, None, Off)), [], false, false, [])
  }

  lemma StartedOk(boxes: seq<string>)
    requires forall i, k | 0 <= i < |boxes| && 0 <= k < |boxes| && boxes[i] == boxes[k] :: i == k
    requires forall i | 0 <= i < |boxes| :: ValidBox(boxes[i])
    ensures Ok(Started(boxes)) && LogOk(Started(boxes)) && EndsOk(Started(boxes))
  {
    hide ValidBox;
    var g := Started(boxes);
    forall i | 0 <= i < |g.insts| ensures ActorOk(g, i) {
      assert g.insts[i].box == boxes[i];
    }
  }

  /** A run: what cannot happen doesn't. */
  function Run(g: Group, steps: seq<Step>): Group {
    if steps == [] then g
    else
      var h := Run(g, steps[..|steps|-1]);
      if Enabled(h, steps[|steps|-1]) then After(h, steps[|steps|-1]) else h
  }

  /** At most one actor of a box hasn't ended. */
  lemma OneActor(g: Group, i: nat, k: nat)
    requires Ok(g) && IsInst(g, i) && IsInst(g, k) && g.insts[i].box == g.insts[k].box
    requires !IsClosed(g.insts[i]) && !IsClosed(g.insts[k])
    ensures i == k && g.insts[i].box in g.actors && g.actors[g.insts[i].box] == i
  {
    assert ActorOk(g, i) && ActorOk(g, k);
  }

  // The log: what changes were made, in which order.

  /** The change of a box that has begun and isn't done. */
  function Doing(log: seq<Entry>, box: string): Option<nat> {
    if log == [] then None
    else
      var e := log[|log|-1];
      if e.box != box then Doing(log[..|log|-1], box) else if e.Begin? then Some(e.c) else None
  }

  predicate Begun(log: seq<Entry>, c: nat) {
    exists k | 0 <= k < |log| :: log[k].Begin? && log[k].c == c
  }

  /** No two changes of a box overlap, and none is made twice. */
  ghost predicate OneAtATime(log: seq<Entry>) {
    forall k | 0 <= k < |log| :: Fits(log[..k], log[k])
  }

  /** e may come next: a message begins with nothing going on for its box and
      has not begun before, and it is the one going on that is done. */
  ghost predicate Fits(log: seq<Entry>, e: Entry) {
    if e.Begin? then Doing(log, e.box).None? && !Begun(log, e.c) else Doing(log, e.box) == Some(e.c)
  }

  lemma LogMore(log: seq<Entry>, e: Entry)
    ensures forall box ::
      Doing(log + [e], box) == if e.box != box then Doing(log, box) else if e.Begin? then Some(e.c) else None
    ensures forall c: nat :: Begun(log + [e], c) <==> Begun(log, c) || (e.Begin? && e.c == c)
    ensures OneAtATime(log) && Fits(log, e) ==> OneAtATime(log + [e])
  {
    var next := log + [e];
    assert next[..|log|] == log && next[|log|] == e;
    assert forall k | 0 <= k <= |log| :: next[..k] == log[..k];
    forall c: nat ensures Begun(next, c) <==> Begun(log, c) || (e.Begin? && e.c == c) {
      if Begun(log, c) {
        var k :| 0 <= k < |log| && log[k].Begin? && log[k].c == c;
        assert next[k] == log[k];
      }
    }
  }

  /** The log agrees with the actors and the callers: a message that was taken
      is being handled by the box's actor, or was answered. */
  ghost predicate LogOk(g: Group) {
    && OneAtATime(g.log)
    && (forall i | 0 <= i < |g.insts| && g.insts[i].phase.Handling? ::
          Doing(g.log, g.insts[i].box) == Some(g.insts[i].phase.c))
    && (forall box | Doing(g.log, box).Some? :: IsDoing(g, box, Doing(g.log, box).value))
    && (forall c: nat | Begun(g.log, c) :: IsCaller(g, c) &&
          (g.callers[c].at.Taken? || g.callers[c].at == Finished(true)))
  }

  predicate IsDoing(g: Group, box: string, c: nat) {
    IsCaller(g, c) && g.callers[c].at.Taken? && IsInst(g, g.callers[c].at.owner) &&
      g.insts[g.callers[c].at.owner].box == box
  }

  lemma TakeLogged(g: Group, c: nat)
    requires Ok(g) && LogOk(g) && Enabled(g, Take(c))
    ensures LogOk(After(g, Take(c)))
  {
    hide ValidBox, Doing, Begun, OneAtATime;
    var i := g.callers[c].at.to;
    var box := g.insts[i].box;
    var h := After(g, Take(c));
    if Doing(g.log, box).Some? {
      var d := Doing(g.log, box).value;
      assert CallerOk(g, d);
      OneActor(g, i, g.callers[d].at.owner);
      assert false;
    }
    LogMore(g.log, Begin(box, c));
  }

  lemma AnswerLogged(g: Group, i: nat)
    requires Ok(g) && LogOk(g) && Enabled(g, Answer(i))
    ensures LogOk(After(g, Answer(i)))
  {
    hide ValidBox, Doing, Begun, OneAtATime;
    assert ActorOk(g, i);
    var box, c := g.insts[i].box, g.insts[i].phase.c;
    var h := After(g, Answer(i));
    LogMore(g.log, Done(box, c));
    forall j | 0 <= j < |h.insts| && h.insts[j].phase.Handling?
      ensures Doing(h.log, h.insts[j].box) == Some(h.insts[j].phase.c) {
      if h.insts[j].box == box {
        OneActor(g, i, j);
      }
    }
  }

  lemma OtherLogged(g: Group, s: Step)
    requires Ok(g) && LogOk(g) && Enabled(g, s) && !s.Take? && !s.Answer?
    ensures LogOk(After(g, s))
  {
    hide Ok, Doing, Begun, OneAtATime, LogOk;
    OtherQuiet(g, s);
    QuietLogged(g, After(g, s));
  }

  /** From g to h no change begins or is done, and no actor or caller is lost. */
  ghost predicate Quiet(g: Group, h: Group) {
    && h.log == g.log && |g.insts| <= |h.insts| && |g.callers| <= |h.callers|
    && (forall i | 0 <= i < |g.insts| :: h.insts[i].box == g.insts[i].box)
    && (forall i | 0 <= i < |h.insts| && h.insts[i].phase.Handling? ::
          i < |g.insts| && g.insts[i].phase == h.insts[i].phase)
    && (forall c | 0 <= c < |g.callers| && (g.callers[c].at.Taken? || g.callers[c].at.Finished?) ::
          h.callers[c].at == g.callers[c].at)
  }

  predicate OfCaller(s: Step) {
    s.Call? || s.CallEnd? || s.Cancel? || s.Find? || s.Refuse? || s.Lost? || s.GiveUp? || s.Nest? || s.Touch?
  }

  lemma OtherQuiet(g: Group, s: Step)
    requires Enabled(g, s) && !s.Take? && !s.Answer?
    ensures Quiet(g, After(g, s))
  {
    hide Quiet, Enabled, After;
    if OfCaller(s) {
      CallerQuiet(g, s);
    } else {
      ActorQuiet(g, s);
    }
  }

  lemma CallerQuiet(g: Group, s: Step)
    requires Enabled(g, s) && OfCaller(s)
    ensures Quiet(g, After(g, s))
  {
    hide ValidBox, Nests, IsForkOf, Took, Answered, Stopping, Reaped;
  }

  lemma ActorQuiet(g: Group, s: Step)
    requires Enabled(g, s) && !s.Take? && !s.Answer? && !OfCaller(s)
    ensures Quiet(g, After(g, s))
  {
    hide ValidBox, Nests, IsForkOf, Took, Answered, Found;
  }

  lemma QuietLogged(g: Group, h: Group)
    requires LogOk(g) && Quiet(g, h)
    ensures LogOk(h)
  {
    hide Doing, Begun, OneAtATime;
  }

  // How calls end.

  /** The log has message c's change done for the box. */
  ghost predicate IsDone(log: seq<Entry>, box: string, c: nat) {
    exists k | 0 <= k < |log| :: log[k] == Done(box, c)
  }

  ghost predicate HasEnded(g: Group, box: string) {
    exists i: nat :: IsInst(g, i) && g.insts[i].box == box && IsClosed(g.insts[i])
  }

  /** A call ends without an answer only if it was cancelled or Run has returned,
      or it is a command's end and the command's actor has ended; with one, its
      change was made. One made in another's change ends before that does. */
  ghost predicate EndOk(g: Group, c: nat)
    requires IsCaller(g, c)
  {
    var m := g.callers[c];
    && (m.retry <==> !m.change.EndCommand?) && (m.cancelled || m.at.Finding? ==> !m.change.EndCommand?)
    && (m.at == Finished(false) ==> m.cancelled || g.returned || (m.change.EndCommand? && HasEnded(g, m.box)))
    && (m.at == Finished(true) ==> IsDone(g.log, m.box, c))
    && (m.parent.Some? ==> IsCaller(g, m.parent.value) && (!m.at.Finished? ==> Holds(g, m.parent.value, c)))
  }

  /** Message p's change is under way, and waits for call c. */
  ghost predicate Holds(g: Group, p: nat, c: nat)
    requires IsCaller(g, p)
  {
    g.callers[p].at.Taken? && IsInst(g, g.callers[p].at.owner) && g.insts[g.callers[p].at.owner].child == Some(c)
  }

  ghost predicate EndsOk(g: Group) {
    forall c | 0 <= c < |g.callers| :: EndOk(g, c)
  }

  /** From g to h: nothing of the past changes. */
  ghost predicate Onward(g: Group, h: Group) {
    && |g.insts| <= |h.insts| && |g.callers| <= |h.callers| && (g.returned ==> h.returned) && g.log <= h.log
    && (forall i | 0 <= i < |g.insts| :: h.insts[i].box == g.insts[i].box)
    && (forall i | 0 <= i < |g.insts| && IsClosed(g.insts[i]) :: IsClosed(h.insts[i]))
    && (forall c | 0 <= c < |g.callers| :: SameCall(g.callers[c], h.callers[c]))
  }

  predicate SameCall(m: Caller, n: Caller) {
    && n.box == m.box && n.change == m.change && n.retry == m.retry && n.parent == m.parent
    && (m.cancelled ==> n.cancelled) && (m.at.Finished? ==> n.at == m.at)
  }

  lemma StepOnward(g: Group, s: Step)
    requires Ok(g) && Enabled(g, s)
    ensures Onward(g, After(g, s))
  {
    hide Onward, Enabled, After, Ok;
    if s.Take? || s.Answer? {
      TakeOnward(g, s);
    } else if OfCaller(s) {
      CallerOnward(g, s);
    } else {
      ActorOnward(g, s);
    }
  }

  lemma TakeOnward(g: Group, s: Step)
    requires Ok(g) && Enabled(g, s) && (s.Take? || s.Answer?)
    ensures Onward(g, After(g, s))
  {
    hide ValidBox, Nests, IsForkOf, Found, Stopping, Reaped;
    assert s.Answer? ==> ActorOk(g, s.i);
  }

  lemma CallerOnward(g: Group, s: Step)
    requires Enabled(g, s) && OfCaller(s)
    ensures Onward(g, After(g, s))
  {
    hide ValidBox, Nests, IsForkOf, Took, Answered, Stopping, Reaped;
  }

  lemma ActorOnward(g: Group, s: Step)
    requires Enabled(g, s) && !s.Take? && !s.Answer? && !OfCaller(s)
    ensures Onward(g, After(g, s))
  {
    hide Onward, Enabled, After;
    if s.StopWatch? || s.Reap? {
      StopOnward(g, s);
    } else {
      PhaseOnward(g, s);
    }
  }

  lemma StopOnward(g: Group, s: Step)
    requires Enabled(g, s) && (s.StopWatch? || s.Reap?)
    ensures Onward(g, After(g, s))
  {
    hide ValidBox, Nests, IsForkOf, Took, Answered, Found;
  }

  lemma PhaseOnward(g: Group, s: Step)
    requires Enabled(g, s) && !s.Take? && !s.Answer? && !OfCaller(s) && !s.StopWatch? && !s.Reap?
    ensures Onward(g, After(g, s))
  {
    hide ValidBox, Nests, IsForkOf, Took, Answered, Found, Stopping, Reaped;
  }

  /** A call that has ended stays as it ended. */
  lemma EndedStays(g: Group, h: Group, c: nat)
    requires Onward(g, h) && IsCaller(g, c) && EndOk(g, c) && g.callers[c].at.Finished?
    requires h.callers[c].cancelled ==> !h.callers[c].change.EndCommand?
    ensures IsCaller(h, c) && EndOk(h, c)
  {
    var m := g.callers[c];
    assert SameCall(m, h.callers[c]);
    if HasEnded(g, m.box) {
      var i: nat :| IsInst(g, i) && g.insts[i].box == m.box && IsClosed(g.insts[i]);
      assert IsInst(h, i) && h.insts[i].box == m.box && IsClosed(h.insts[i]);
    }
    if IsDone(g.log, m.box, c) {
      var k :| 0 <= k < |g.log| && g.log[k] == Done(m.box, c);
      assert h.log[k] == g.log[k];
    }
  }

  /** A change that waits for a call goes on waiting for it while it hasn't ended. */
  lemma HoldsOn(g: Group, s: Step, p: nat, c: nat)
    requires Ok(g) && Enabled(g, s) && IsCaller(g, p) && IsCaller(g, c) && Holds(g, p, c) && !g.callers[c].at.Finished?
    ensures IsCaller(After(g, s), p) && Holds(After(g, s), p, c)
  {
    hide After, Enabled, Ok;
    if s.Take? || s.Answer? || s.Nest? || s.Back? {
      HoldsHandled(g, s, p, c);
    } else if OfCaller(s) {
      HoldsCaller(g, s, p, c);
    } else {
      HoldsActor(g, s, p, c);
    }
  }

  lemma HoldsHandled(g: Group, s: Step, p: nat, c: nat)
    requires Ok(g) && Enabled(g, s) && IsCaller(g, p) && IsCaller(g, c) && Holds(g, p, c) && !g.callers[c].at.Finished?
    requires s.Take? || s.Answer? || s.Nest? || s.Back?
    ensures IsCaller(After(g, s), p) && Holds(After(g, s), p, c)
  {
    hide ValidBox, Nests, IsForkOf, Found, Stopping, Reaped;
    assert CallerOk(g, p);
    if s.Answer? {
      assert ActorOk(g, s.i);
    }
  }

  lemma HoldsCaller(g: Group, s: Step, p: nat, c: nat)
    requires Ok(g) && Enabled(g, s) && IsCaller(g, p) && IsCaller(g, c) && Holds(g, p, c)
    requires OfCaller(s) && !s.Nest?
    ensures IsCaller(After(g, s), p) && Holds(After(g, s), p, c)
  {
    hide ValidBox, Nests, IsForkOf, Took, Answered, Stopping, Reaped, Ok;
  }

  lemma HoldsActor(g: Group, s: Step, p: nat, c: nat)
    requires Enabled(g, s) && IsCaller(g, p) && IsCaller(g, c) && Holds(g, p, c)
    requires !OfCaller(s) && !s.Take? && !s.Answer? && !s.Back?
    ensures IsCaller(After(g, s), p) && Holds(After(g, s), p, c)
  {
    hide ValidBox, Nests, IsForkOf, Took, Answered, Found;
  }

  /** One that ends now. */
  lemma EndsNow(g: Group, s: Step, c: nat)
    requires Ok(g) && Enabled(g, s) && IsCaller(g, c) && EndOk(g, c) && !g.callers[c].at.Finished?
    ensures IsCaller(After(g, s), c)
    ensures var m, h := After(g, s).callers[c], After(g, s);
      && (m.cancelled || m.at.Finding? ==> !m.change.EndCommand?)
      && (m.at == Finished(false) ==> m.cancelled || h.returned || (m.change.EndCommand? && HasEnded(h, m.box)))
      && (m.at == Finished(true) ==> IsDone(h.log, m.box, c))
  {
    hide After, Enabled, Ok, EndOk, HasEnded, IsDone;
    if s.Answer? || s.Take? || s.StopWatch? {
      EndsHandled(g, s, c);
    } else if OfCaller(s) {
      EndsCalling(g, s, c);
    } else {
      EndsNot(g, s, c);
    }
  }

  lemma EndsHandled(g: Group, s: Step, c: nat)
    requires Ok(g) && Enabled(g, s) && IsCaller(g, c) && EndOk(g, c) && !g.callers[c].at.Finished?
    requires s.Answer? || s.Take? || s.StopWatch?
    ensures IsCaller(After(g, s), c)
    ensures var m, h := After(g, s).callers[c], After(g, s);
      && (m.cancelled || m.at.Finding? ==> !m.change.EndCommand?) && m.at != Finished(false)
      && (m.at == Finished(true) ==> IsDone(h.log, m.box, c))
  {
    hide ValidBox, Nests, IsForkOf, HasEnded, IsDone, Found, Reaped, Holds;
    if s.Answer? {
      assert ActorOk(g, s.i);
      if g.insts[s.i].phase.c == c {
        DoneThere(g.log, g.callers[c].box, c);
      }
    }
    if s.StopWatch? {
      assert ActorOk(g, s.i);
    }
  }

  lemma EndsCalling(g: Group, s: Step, c: nat)
    requires Ok(g) && Enabled(g, s) && IsCaller(g, c) && EndOk(g, c) && !g.callers[c].at.Finished? && OfCaller(s)
    ensures IsCaller(After(g, s), c)
    ensures var m, h := After(g, s).callers[c], After(g, s);
      && (m.cancelled || m.at.Finding? ==> !m.change.EndCommand?) && m.at != Finished(true)
      && (m.at == Finished(false) ==> m.cancelled || h.returned || (m.change.EndCommand? && HasEnded(h, m.box)))
  {
    hide ValidBox, Nests, IsForkOf, HasEnded, IsDone, Took, Answered, Stopping, Reaped, Holds;
    assert CallerOk(g, c);
    if s == Lost(c) {
      EndedThere(g, After(g, s), g.callers[c].at.to);
    }
  }

  lemma EndsNot(g: Group, s: Step, c: nat)
    requires Enabled(g, s) && IsCaller(g, c) && EndOk(g, c) && !g.callers[c].at.Finished?
    requires !OfCaller(s) && !s.Answer? && !s.Take? && !s.StopWatch?
    ensures IsCaller(After(g, s), c)
    ensures var m := After(g, s).callers[c]; !m.at.Finished? && (m.cancelled || m.at.Finding? ==> !m.change.EndCommand?)
  {
    hide ValidBox, Nests, IsForkOf, HasEnded, IsDone, Took, Answered, Stopping, Found, Holds;
  }

  lemma EndedThere(g: Group, h: Group, i: nat)
    requires IsInst(g, i) && h.insts == g.insts && IsClosed(g.insts[i])
    ensures HasEnded(h, g.insts[i].box)
  {
    assert IsInst(h, i);
  }

  lemma DoneThere(log: seq<Entry>, box: string, c: nat)
    ensures IsDone(log + [Done(box, c)], box, c)
  {
    assert (log + [Done(box, c)])[|log|] == Done(box, c);
  }

  /** A call that comes with the step. */
  lemma EndOfNew(g: Group, s: Step, c: nat)
    requires Ok(g) && Enabled(g, s) && |g.callers| <= c && IsCaller(After(g, s), c)
    ensures EndOk(After(g, s), c)
  {
    hide ValidBox, IsForkOf, HasEnded, IsDone;
    if s.Nest? {
      assert ActorOk(g, s.i);
    }
  }

  lemma EndsStep(g: Group, s: Step)
    requires Ok(g) && EndsOk(g) && Enabled(g, s)
    ensures EndsOk(After(g, s))
  {
    var h := After(g, s);
    StepOnward(g, s);
    hide Ok, Enabled, After, EndOk, HasEnded, IsDone, Holds;
    forall c | 0 <= c < |h.callers| ensures EndOk(h, c) {
      if c < |g.callers| {
        assert EndOk(g, c) && SameCall(g.callers[c], h.callers[c]);
        EndStep(g, s, c);
      } else {
        EndOfNew(g, s, c);
      }
    }
  }

  lemma EndStep(g: Group, s: Step, c: nat)
    requires Ok(g) && Enabled(g, s) && Onward(g, After(g, s)) && IsCaller(g, c) && EndOk(g, c)
    ensures IsCaller(After(g, s), c) && EndOk(After(g, s), c)
  {
    hide Ok, Enabled, After, HasEnded, IsDone, Holds;
    var h := After(g, s);
    assert SameCall(g.callers[c], h.callers[c]);
    if g.callers[c].at.Finished? {
      NoneCancelled(g, s, c);
      EndedStays(g, h, c);
    } else {
      EndsNow(g, s, c);
      if g.callers[c].parent.Some? {
        HoldsOn(g, s, g.callers[c].parent.value, c);
      }
    }
  }

  /** Commands' ends are never cancelled. */
  lemma NoneCancelled(g: Group, s: Step, c: nat)
    requires Ok(g) && Enabled(g, s) && IsCaller(g, c) && EndOk(g, c) && IsCaller(After(g, s), c)
    ensures After(g, s).callers[c].cancelled ==> !After(g, s).callers[c].change.EndCommand?
  {
    hide ValidBox, Nests, IsForkOf, HasEnded, IsDone, Holds;
    if s.StopWatch? || s.Answer? {
      assert ActorOk(g, s.i);
    }
  }

  /** In every interleaving, from a group just started: at most one actor per
      box hasn't ended and it is the one in the map, the changes of a box
      never overlap, a message is taken at most once and then answered, and
      every call ends as EndOk says. */
  lemma {:induction false} RunOk(g: Group, steps: seq<Step>)
    requires Ok(g) && LogOk(g) && EndsOk(g)
    ensures Ok(Run(g, steps)) && LogOk(Run(g, steps)) && EndsOk(Run(g, steps))
  {
    hide Ok, LogOk, Enabled, After, EndsOk;
    if steps != [] {
      RunOk(g, steps[..|steps|-1]);
      var h, s := Run(g, steps[..|steps|-1]), steps[|steps|-1];
      if Enabled(h, s) {
        StepOk(h, s);
        EndsStep(h, s);
        match s
        case Take(c) => TakeLogged(h, c);
        case Answer(i) => AnswerLogged(h, i);
        case _ => OtherLogged(h, s);
      }
    }
  }

  /** So in every run from the start, a call that nobody cancels, made while Run
      runs, ends only with its change made, once, and after every call that was
      made in it. */
  lemma CallsAreAnswered(boxes: seq<string>, steps: seq<Step>, c: nat)
    requires forall i, k | 0 <= i < |boxes| && 0 <= k < |boxes| && boxes[i] == boxes[k] :: i == k
    requires forall i | 0 <= i < |boxes| :: ValidBox(boxes[i])
    requires var g := Run(Started(boxes), steps); IsCaller(g, c) && g.callers[c].at.Finished?
    ensures var g := Run(Started(boxes), steps);
      && (!g.callers[c].cancelled && !g.returned && !g.callers[c].change.EndCommand? ==>
            g.callers[c].at == Finished(true))
      && (g.callers[c].at == Finished(true) ==> IsDone(g.log, g.callers[c].box, c))
      && (forall k | 0 <= k < |g.callers| && g.callers[k].parent == Some(c) :: g.callers[k].at.Finished?)
  {
    hide Run, Started, ValidBox, Ok, LogOk, IsDone, HasEnded;
    StartedOk(boxes);
    RunOk(Started(boxes), steps);
    var g := Run(Started(boxes), steps);
    assert EndOk(g, c);
    forall k | 0 <= k < |g.callers| && g.callers[k].parent == Some(c) ensures g.callers[k].at.Finished? {
      assert EndOk(g, k);
    }
  }

  // ----------------------------------------------------------------- progress

  /** The steps that end a wait or a change: none that begins or cancels a call. */
  predicate Advances(s: Step) {
    s.Find? || s.Refuse? || s.Take? || s.Lost? || s.GiveUp? || s.Back? || s.Answer? || s.StopWatch? || s.WatchEnds? ||
      s.Slept? || s.Close?
  }

  predicate IsBy(s: Step, i: nat) {
    (s.Back? || s.Answer? || s.StopWatch? || s.WatchEnds? || s.Slept? || s.Close?) && s.i == i
  }

  predicate IsOf(s: Step, c: Option<nat>) {
    c.Some? && (s.Find? || s.Refuse? || s.Take? || s.Lost? || s.GiveUp?) && s.c == c.value
  }

  /** The actor the nested call of actor i is with. */
  function WaitsFor(g: Group, i: nat): Option<nat>
    requires IsInst(g, i)
  {
    var c := g.insts[i].child;
    if c.None? || !IsCaller(g, c.value) then None
    else
      var at := g.callers[c.value].at;
      if at.Sending? then Some(at.to) else if at.Taken? then Some(at.owner) else None
  }

  /** The step is of actor i, of a call it or its watcher makes, or of an actor
      at most so many calls away that it waits for. */
  predicate Helps(g: Group, i: nat, s: Step, calls: nat)
    requires IsInst(g, i)
    decreases calls
  {
    || IsBy(s, i) || IsOf(s, g.insts[i].child)
    || (!g.insts[i].watch.Off? && IsOf(s, g.insts[i].watch.touch))
    || (calls > 0 && WaitsFor(g, i).Some? && IsInst(g, WaitsFor(g, i).value) &&
      Helps(g, WaitsFor(g, i).value, s, calls - 1))
  }

  /** The touch of a watcher that is being stopped isn't held by the actor that
      waits for it: it gives up, being cancelled. */
  lemma WatcherGivesUp(g: Group, i: nat) returns (s: Step)
    requires Ok(g) && IsInst(g, i) && g.insts[i].watch.Cancelled?
    ensures Advances(s) && Enabled(g, s) && Helps(g, i, s, 0)
  {
    hide ValidBox;
    assert ActorOk(g, i);
    var t := g.insts[i].watch.touch;
    s := WatchEnds(i);
    if t.Some? && !HasFinished(g, t.value) {
      var c := t.value;
      assert CallerOk(g, c);
      if g.callers[c].at.Taken? {
        assert ActorOk(g, g.callers[c].at.owner);
        OneActor(g, i, g.callers[c].at.owner);
        assert false;
      }
      s := if g.callers[c].at.Finding? then Refuse(c) else GiveUp(c);
    }
  }

  lemma HelpsMore(g: Group, i: nat, s: Step, calls: nat, more: nat)
    requires IsInst(g, i) && Helps(g, i, s, calls) && calls <= more
    ensures Helps(g, i, s, more)
    decreases calls
  {
  }

  /** The name of an actor's box leaves it so many calls. */
  function CallsLeft(g: Group, i: nat): nat
    requires IsInst(g, i)
  {
    if |g.insts[i].box| <= LONGEST then LONGEST - |g.insts[i].box| else 0
  }

  /** No set of actors waits for each other: whatever an actor at work waits
      for, through however many calls, some step of it can be taken, and none
      needs a deadline. */
  lemma {:induction false} SomeoneAdvances(g: Group, i: nat) returns (s: Step)
    requires Ok(g) && IsInst(g, i)
    requires g.insts[i].phase.Handling? || g.insts[i].phase.Sleeping? || g.insts[i].phase.Ending?
    ensures Advances(s) && Enabled(g, s) && Helps(g, i, s, CallsLeft(g, i))
    decreases CallsLeft(g, i), 1
  {
    hide ValidBox;
    var a := g.insts[i];
    assert ActorOk(g, i);
    BoxLength(a.box);
    if a.watch.Cancelled? {
      s := WatcherGivesUp(g, i);
      HelpsMore(g, i, s, 0, CallsLeft(g, i));
    } else if a.phase.Sleeping? {
      s := Slept(i);
    } else if a.phase.Ending? {
      s := if a.watch.Off? then Close(i) else StopWatch(i);
    } else if a.child.None? {
      s := Answer(i);
    } else {
      s := ChildAdvances(g, i);
    }
  }

  lemma {:induction false} ChildAdvances(g: Group, i: nat) returns (s: Step)
    requires Ok(g) && IsInst(g, i) && g.insts[i].phase.Handling? && g.insts[i].child.Some?
    ensures Advances(s) && Enabled(g, s) && Helps(g, i, s, CallsLeft(g, i))
    decreases CallsLeft(g, i), 0
  {
    hide ValidBox;
    assert ActorOk(g, i);
    var c := g.insts[i].child.value;
    assert CallerOk(g, c);
    BoxLength(g.callers[c].box);
    var at := g.callers[c].at;
    if at.Finished? {
      s := Back(i);
    } else if at.Finding? {
      s := if g.returned then Refuse(c) else Find(c);
    } else {
      var k := WaitsFor(g, i).value;
      assert ActorOk(g, k);
      if at.Sending? && (g.insts[k].phase.Ready? || g.insts[k].phase.Deciding?) {
        s := Take(c);
      } else if at.Sending? && IsClosed(g.insts[k]) {
        s := Lost(c);
      } else {
        s := SomeoneAdvances(g, k);
        HelpsMore(g, k, s, CallsLeft(g, k), CallsLeft(g, i) - 1);
      }
    }
  }
}
