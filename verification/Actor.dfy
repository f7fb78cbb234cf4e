/** The actor of one box (internal/actor/actor.go, idle.go, exec.go, changes.go,
    watch.go): its methods, and what it has done to the box and its disk. */
module Actor {
  import opened Options
  import opened ActorState

  /** What an actor does outside itself: asks for the box to be woken, has
      stopped it, counts a command, stops counting one (it ended, or is
      cancelled), swaps or deletes the environment's disk. */
  datatype Effect = Up | Down | Began(n: nat) | Over(n: nat) | Disk

  /** The commands counted after these effects. */
  function Counted(log: seq<Effect>): set<nat> {
    if log == [] then {}
    else
      var rest, e := Counted(log[..|log|-1]), log[|log|-1];
      if e.Began? then rest + {e.n} else if e.Over? then rest - {e.n} else rest
  }

  /** The box may be running after these effects. */
  predicate Running(log: seq<Effect>) {
    log != [] && (log[|log|-1].Up? || (!log[|log|-1].Down? && Running(log[..|log|-1])))
  }

  /** The disk was only ever touched with the box stopped and no command counted. */
  ghost predicate DiskSafe(log: seq<Effect>) {
    forall k | 0 <= k < |log| && log[k].Disk? :: !Running(log[..k]) && Counted(log[..k]) == {}
  }

  lemma More(log: seq<Effect>, e: Effect)
    ensures Counted(log + [e]) ==
      if e.Began? then Counted(log) + {e.n} else if e.Over? then Counted(log) - {e.n} else Counted(log)
    ensures Running(log + [e]) == (e.Up? || (!e.Down? && Running(log)))
    ensures DiskSafe(log) && (e.Disk? ==> !Running(log) && Counted(log) == {}) ==> DiskSafe(log + [e])
  {
    var next := log + [e];
    assert next[..|log|] == log;
    assert forall k | 0 <= k <= |log| :: next[..k] == log[..k];
  }

  class Actor {
    const idle: Idle
    var addr: string
    var awake: bool
    var execs: set<nat>
    var jobs: set<nat>
    var next: nat
    var begun: int
    var closed: int
    var lease: Option<int>
    var prewoken: bool
    var watching: bool
    var crashes: seq<int>
    var timer: Option<int>
    var woken: nat  // counts of the pre-wakes: tried, paid off, for nothing
    var used: nat
    var wasted: nat
    ghost var log: seq<Effect>

    function View(): State
      reads this
    {
      State(addr, awake, execs, jobs, next, begun, closed, lease, prewoken, watching, crashes)
    }

    ghost predicate Valid()
      reads this
    {
      && Inv(View()) && Counted(log) == execs + jobs && DiskSafe(log) && (Running(log) <==> awake)
      && woken == used + wasted + if prewoken then 1 else 0
    }

    /** run's start. */
    constructor (idle: Idle, awake: bool, crashes: seq<int>, now: int)
      ensures Valid() && View() == New(awake, crashes, now) && this.idle == idle
      ensures log == if awake then [Up] else []
    {
      this.idle, this.awake, this.crashes := idle, awake, crashes;
      addr, execs, jobs, next, lease, prewoken, watching, timer := "", {}, {}, 0, None, false, false, None;
      begun, closed := if awake then now else 0, if awake then now else 0;
      woken, used, wasted, log := 0, 0, 0, if awake then [Up] else [];
    }

    /** recent. */
    method DropOld(now: int)
      modifies this`crashes
      ensures crashes == Recent(old(crashes), now)
    {
      var kept: seq<int> := [];
      assert crashes[..0] == [];
      for i := 0 to |crashes|
        invariant kept == Recent(crashes[..i], now)
      {
        assert crashes[..i+1][..i] == crashes[..i];
        if now - crashes[i] < CRASH_WINDOW {
          kept := kept + [crashes[i]];
        }
      }
      assert crashes[..|crashes|] == crashes;
      crashes := kept;
    }

    /** wake. */
    method Wake(w: Waking) returns (ok: bool)
      requires Valid()
      modifies this
      ensures Valid() && View() == AfterWake(old(View()), w) && ok == Wakes(old(View()), w)
      ensures woken == old(woken) && used == old(used) && wasted == old(wasted)
    {
      hide Recent, Counted, Running, DiskSafe;
      if !w.known {
        return false;
      }
      if addr != "" && addr != w.stale {
        return true;
      }
      if w.stale != "" {
        crashes := crashes + [w.now];
      }
      DropOld(w.now);
      if |crashes| >= CRASH_LIMIT {
        return false;
      }
      ok := AskDriver(w);
    }

    method AskDriver(w: Waking) returns (ok: bool)
      requires Valid()
      modifies this
      ensures Valid() && View() == AfterDriver(old(View()), w) && ok == w.addr.Some?
      ensures woken == old(woken) && used == old(used) && wasted == old(wasted)
    {
      hide Counted, Running, DiskSafe;
      Rouse(w.now);
      if w.addr.None? {
        crashes := crashes + [w.now + w.took];
        return false;
      }
      addr := w.addr.value;
      watching := watching || w.watched;
      ok := true;
    }

    /** wake's driver call. The marks are made before it: it may start the box and still fail. */
    method Rouse(now: int)
      requires Valid()
      modifies this`addr, this`awake, this`begun, this`closed, this`log
      ensures Valid() && addr == "" && awake
      ensures begun == (if old(awake) then old(begun) else now) && closed == if old(awake) then old(closed) else now
    {
      More(log, Up);
      hide Counted, Running, DiskSafe;
      addr := "";
      if !awake {
        awake := true;
        begun, closed := now, now;
      }
      log := log + [Up];
    }

    /** endLease. */
    method EndLease(isUsed: bool)
      requires Valid()
      modifies this
      ensures Valid() && View() == old(View()).(lease := None, prewoken := false)
      ensures woken == old(woken)
      ensures used == old(used) + (if old(prewoken) && isUsed then 1 else 0)
      ensures wasted == old(wasted) + (if old(prewoken) && !isUsed then 1 else 0)
      ensures log == old(log)
    {
      if prewoken {
        if isUsed {
          used := used + 1;
        } else {
          wasted := wasted + 1;
        }
      }
      lease, prewoken := None, false;
    }

    /** Cancels the commands counted. */
    method CancelAll()
      requires Counted(log) == execs + jobs && execs !! jobs && DiskSafe(log)
      modifies this`execs, this`jobs, this`log
      ensures execs == {} && jobs == {} && Counted(log) == {} && DiskSafe(log) && Running(log) == old(Running(log))
    {
      hide Counted, Running, DiskSafe;
      while execs != {}
        invariant Counted(log) == execs + jobs && execs !! jobs && DiskSafe(log) && Running(log) == old(Running(log))
        decreases execs
      {
        var n :| n in execs;
        More(log, Over(n));
        log := log + [Over(n)];
        execs := execs - {n};
      }
      while jobs != {}
        invariant execs == {} && Counted(log) == jobs && DiskSafe(log) && Running(log) == old(Running(log))
        decreases jobs
      {
        var n :| n in jobs;
        More(log, Over(n));
        log := log + [Over(n)];
        jobs := jobs - {n};
      }
    }

    /** stopBox: when it returns, nothing of the box writes to the disk any more. */
    method StopBox(slept: bool)
      requires Valid()
      modifies this
      ensures Valid() && View() == AfterStop(old(View()), slept)
      ensures slept ==> !Running(log) && Counted(log) == {}
      ensures woken == old(woken) && used == old(used)
      ensures wasted == old(wasted) + if old(prewoken) && slept then 1 else 0
    {
      hide Counted, Running, DiskSafe;
      addr, watching := "", false;
      if !slept {
        return;
      }
      EndLease(false);
      GoDown();
    }

    /** The box is gone: nothing counted goes on. */
    method GoDown()
      requires Valid() && addr == "" && !watching && !prewoken && lease.None?
      modifies this`log, this`awake, this`execs, this`jobs
      ensures Valid() && !awake && execs == {} && jobs == {} && Counted(log) == {}
    {
      hide Counted, Running, DiskSafe;
      More(log, Down);
      log := log + [Down];
      awake := false;
      CancelAll();
    }

    /** prewake's change. */
    method PrewakeBox(w: Waking)
      requires Valid() && w.stale == ""
      modifies this
      ensures Valid() && View() == AfterPrewake(old(View()), w, idle)
      ensures woken == old(woken) + WokenBy(old(View()), idle, Prewake(w)) && used == old(used) && wasted == old(wasted)
    {
      hide Counted, Running, DiskSafe, AfterWake, AsksDriver, Recent;
      if awake {
        return;
      }
      lease := Some(w.now + idle.prewake);
      var ok := Wake(w);
      KeepsPrewoken(old(View()).(lease := Some(w.now + idle.prewake)), w);
      if !ok {
        if !awake {
          lease := None;
        }
        return;
      }
      lease, prewoken, woken := Some(w.now + w.took + idle.prewake), true, woken + 1;
    }

    /** exec's change: the command's number, if the box woke. */
    method Exec(w: Waking, job: bool) returns (n: Option<nat>)
      requires Valid()
      modifies this
      ensures Valid() && View() == AfterExec(old(View()), w, job)
      ensures n == if Wakes(old(View()), w) then Some(old(next) + 1) else None
      ensures woken == old(woken) && wasted == old(wasted) &&
        used == old(used) + UsedBy(old(View()), ActorState.Exec(w, job))
    {
      hide Counted, Running, DiskSafe, AfterWake, AsksDriver, Recent;
      var ok := Wake(w);
      KeepsPrewoken(old(View()), w);
      if !ok {
        return None;
      }
      EndLease(true);
      next := next + 1;
      if job {
        jobs := jobs + {next};
      } else {
        execs := execs + {next};
      }
      begun := w.now + w.took;
      More(log, Began(next));
      log := log + [Began(next)];
      n := Some(next);
    }

    /** endExec's change. */
    method EndExec(n: nat, sleep: bool, after: nat, now: int)
      requires Valid()
      modifies this
      ensures Valid() && View() == AfterEnd(old(View()), n, sleep, after, now)
      ensures woken == old(woken) && wasted == old(wasted) && used == old(used)
    {
      hide Counted, Running, DiskSafe;
      More(log, Over(n));
      if n in jobs {
        jobs := jobs - {n};
        log := log + [Over(n)];
      } else if n in execs {
        execs := execs - {n};
        closed := now;
        if sleep && execs == {} {
          lease := Some(closed + after);
        }
        log := log + [Over(n)];
      }
    }

    /** Wake's change: a person asks. */
    method WakeAsked(w: Waking) returns (ok: bool)
      requires Valid() && w.stale == ""
      modifies this
      ensures Valid() && View() == AfterAsked(old(View()), w)
      ensures woken == old(woken) && wasted == old(wasted) && used == old(used) + UsedBy(old(View()), Asked(w))
    {
      hide Counted, Running, DiskSafe, AfterWake, AsksDriver, Recent;
      crashes := [];
      ok := Wake(w);
      KeepsPrewoken(old(View()).(crashes := []), w);
      if ok {
        EndLease(true);
        begun, closed := w.now + w.took, w.now + w.took;
      }
    }

    /** touch's change. */
    method TouchBox(known: bool, now: int)
      requires Valid()
      modifies this`begun
      ensures Valid() && View() == AfterTouch(old(View()), known, now)
    {
      if addr != "" && known {
        begun := now;
      }
    }

    method ArmIdle()
      modifies this`timer
      ensures timer == Armed(View(), idle)
    {
      timer := if !awake || execs != {} || idle.agent == 0 || idle.human == 0
        then None else Some(Deadline(View(), idle));
    }

    method SleepIfIdle(now: int, slept: bool, took: nat)
      requires Valid()
      modifies this
      ensures Valid() && View() == AfterTimer(old(View()), idle, now, slept, took)
      // Never with a command counted or before the deadline.
      ensures View() != old(View()) ==> old(execs) == {} && now >= Deadline(old(View()), idle)
      ensures woken == old(woken) && used == old(used) &&
        wasted == old(wasted) + WastedBy(old(View()), idle, Timer(now, slept, took))
    {
      hide Counted, Running, DiskSafe;
      if !awake || execs != {} || now < Deadline(View(), idle) {
        return;
      }
      StopBox(slept);
      if !slept {
        closed := now + took;
      }
    }

    /** Restore's change: agentSlept says stopping the agent box didn't fail. */
    method Restore(hasSnapshot: bool, slept: bool, agentSlept: bool, restored: bool) returns (ok: bool)
      requires Valid()
      modifies this
      ensures Valid() && ok == (hasSnapshot && slept && agentSlept && restored)
      ensures View() == if hasSnapshot then AfterStop(old(View()), slept) else old(View())
      ensures used == old(used)
    {
      hide Counted, Running, DiskSafe;
      if !hasSnapshot {
        return false;
      }
      StopBox(slept);
      if !slept || !agentSlept {
        return false;
      }
      More(log, Disk);
      log := log + [Disk];
      ok := restored;
    }

    /** Delete's change, after its forks' deletes. */
    method Delete(known: bool, forksDeleted: bool, slept: bool, agentSlept: bool, deleted: bool) returns (ok: bool)
      requires Valid()
      modifies this
      ensures Valid() && ok == (known && forksDeleted && slept && agentSlept && deleted)
      ensures View() == if known && forksDeleted then AfterStop(old(View()), slept) else old(View())
    {
      hide Counted, Running, DiskSafe;
      if !known || !forksDeleted {
        return false;
      }
      StopBox(slept);
      if !slept || !agentSlept {
        return false;
      }
      More(log, Disk);
      log := log + [Disk];
      ok := deleted;
    }

    /** What run does with one message, or when its timer has fired: then it
        is armed, and its time has come. */
    method Handle(op: Op)
      requires Valid() && IsOp(op)
      modifies this
      ensures Valid() && View() == After(old(View()), idle, op) && timer == Armed(View(), idle)
    {
      hide Counted, Running, DiskSafe, AfterWake, AsksDriver, Recent;
      match op {
        case Asked(w) => var _ := WakeAsked(w);
        case Exec(w, job) => var _ := Exec(w, job);
        case End(n, sleep, after, now) => EndExec(n, sleep, after, now);
        case Prewake(w) => PrewakeBox(w);
        case Touch(known, now) => TouchBox(known, now);
        case Stop(slept) => StopBox(slept);
        case Timer(now, slept, took) => SleepIfIdle(now, slept, took);
      }
      ArmIdle();
    }
  }

  lemma KeepsPrewoken(s: State, w: Waking)
    ensures var t := AfterWake(s, w);
      && t.prewoken == s.prewoken && t.lease == s.lease && t.execs == s.execs && t.jobs == s.jobs && t.next == s.next
      && (s.awake ==> t.awake) && (Wakes(s, w) && ActorState.Inv(s) ==> t.awake)
  {
    hide Recent;
  }
}
