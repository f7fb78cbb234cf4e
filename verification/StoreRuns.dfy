/** Whole runs of the store: any operations, each stopped anywhere, with the
    agents and T3 writing in between. */
module StoreRuns {
  import opened Options
  import opened Names
  import opened Trees
  import opened StorePool
  import opened StoreFields
  import opened Store
  import opened StoreCreate

  /** From p to q, only environment id's directory has changed. */
  ghost predicate Building(p: Pool, q: Pool, id: string) {
    Inv(q) && KeepsLost(p, q) && OnlyDir(p, q, id) && id in q.dirs && id in q.rows
  }

  lemma BuildingStep(p: Pool, q: Pool, id: string, d: EnvDir)
    requires Building(p, q, id) && IndexedOk(d, q.rows[id])
    ensures Building(p, WithDir(q, id, d), id)
  {
    hide Reconciled, KeepsLost, ValidEnvID;
    DirStep(q, id, d);
    KeepsLostTrans(p, q, WithDir(q, id, d));
    hide Inv;
  }

  /** BuildSource (golden.go): builder environment id's workspace becomes a
      copy of snapshot src, the list of whose files is written first. */
  method BuildSource(s: Store, id: string, src: SnapshotRef, list: seq<Path>) returns (r: Outcome)
    requires Inv(s.pool) && src.snapshot.Some?
    modifies s
    ensures Inv(s.pool) && KeepsLost(old(s.pool), s.pool) && OnlyDir(old(s.pool), s.pool, id)
    ensures r.Pass? ==>
      && id in old(s.pool).rows && old(s.pool).rows[id].workspace.Own?
      && id in s.pool.dirs && s.pool.dirs[id].sources == Some(list)
      && IsSource(old(s.pool), src, s.pool.dirs[id].live)
    ensures id in old(s.pool).rows && old(s.pool).rows[id].workspace.Own? && HasSource(old(s.pool), src) ==>
      r.Pass? || (r == Fail(Stopped) && s.Spent())
  {
    hide Reconciled, KeepsLost, ValidEnvID;
    ghost var p := s.pool;
    KeepsLostRefl(p);
    if id !in s.pool.rows {
      return Fail(NotFound);
    }
    if !s.pool.rows[id].workspace.Own? {
      return Fail(InvalidPath);
    }
    SourceIsTree(s.pool, src);
    var from := TreeOf(s.pool, src);
    if from.None? {
      return Fail(NotFound);
    }
    var d := s.pool.dirs[id].(sources := Some(list));
    assert IndexedOk(s.pool.dirs[id], s.pool.rows[id]);
    BuildingStep(p, s.pool, id, d);
    hide Inv;
    :- s.Commit(WithDir(s.pool, id, d));
    if d.live.Subvol? {
      BuildingStep(p, s.pool, id, d.(live := Missing));
      :- s.Commit(WithDir(s.pool, id, d.(live := Missing)));
    }
    d := d.(live := Subvol(from.value));
    BuildingStep(p, s.pool, id, d);
    :- s.Commit(WithDir(s.pool, id, d));
    r := Pass;
  }

  /** One operation of a run, or a change others make meanwhile. */
  datatype Op =
    | OpCreate(id: string, opts: CreateOptions, git: string, full: bool, partly: Tree)
    | OpDelete(id: string)
    | OpSnapshot(id: string, n: string, full: bool)
    | OpDeleteSnapshot(id: string, n: string)
    | OpRestore(id: string, n: string, pre: string)
    | OpBuildSource(id: string, src: SnapshotRef, list: seq<Path>)
    | OpReconcile
    | AgentWrites(id: string, tree: Tree)
    | ClaudeWrites(id: string, tree: Tree)
    | WorktreeAdded(path: string, tree: Tree)
    | WorktreeRemoved(path: string)
    | FileAdded(path: string)

  /** At time now, with budget atomic steps to go. */
  datatype Step = Step(op: Op, now: int, budget: nat)

  /** Makes one step of a run; its result is let go of. */
  method Do(s: Store, step: Step)
    requires Inv(s.pool)
    modifies s
    ensures Inv(s.pool) && KeepsLost(old(s.pool), s.pool)
  {
    hide Reconciled, KeepsLost, Creating;
    KeepsLostRefl(s.pool);
    s.budget := step.budget;
    match step.op
    case OpCreate(id, opts, git, full, partly) =>
      var _ := Create(s, id, opts, git, full, partly);
    case OpDelete(id) =>
      var _ := s.Delete(id, 0);
    case OpSnapshot(id, n, full) =>
      var _ := s.Snapshot(id, n, step.now, full);
    case OpDeleteSnapshot(id, n) =>
      var _ := s.DeleteSnapshot(id, n);
    case OpRestore(id, n, pre) =>
      // Named for the nanosecond, so never one that is there.
      if ValidSnapID(pre) && IsPreRestore(pre) &&
        (id in s.pool.rows ==> pre !in s.pool.dirs[id].snaps.value && pre !in s.pool.rows[id].snaps) {
        var _ := s.Restore(id, n, step.now, pre);
      }
    case OpBuildSource(id, src, list) =>
      if src.snapshot.Some? {
        var _ := BuildSource(s, id, src, list);
      }
    case OpReconcile =>
      var _, _ := s.Reconcile(step.now);
    case AgentWrites(id, tree) =>
      if id in s.pool.rows && PlaceOf(s.pool, id, s.pool.rows[id].workspace).Subvol? {
        PlaceStep(s.pool, id, s.pool.rows[id].workspace, Subvol(tree));
        s.pool := WithPlace(s.pool, id, s.pool.rows[id].workspace, Subvol(tree));
      }
    case ClaudeWrites(id, tree) =>
      if id in s.pool.rows {
        DirStep(s.pool, id, s.pool.dirs[id].(claude := Some(tree)));
        s.pool := WithDir(s.pool, id, s.pool.dirs[id].(claude := Some(tree)));
      }
    case WorktreeAdded(path, tree) =>
      WorkStep(s.pool, path, Plain(tree));
      if WorkAt(s.pool, path).Missing? {
        s.pool := WithWork(s.pool, path, Plain(tree));
      }
    case WorktreeRemoved(path) =>
      WorkStep(s.pool, path, Missing);
      s.pool := WithWork(s.pool, path, Missing);
    case FileAdded(path) =>
      WorkStep(s.pool, path, NotDir);
      if WorkAt(s.pool, path).Missing? {
        s.pool := WithWork(s.pool, path, NotDir);
      }
  }

  /** Every run, then a completed Reconcile: every indexed environment is
      clean, what the index had lost before is kept as it was, no directory
      the run made is reported lost, and another Reconcile changes nothing. */
  method RunThenReconcile(s: Store, run: seq<Step>, now: int, budget: nat) returns (r: Outcome, lost: set<string>)
    requires Inv(s.pool)
    modifies s
    ensures Inv(s.pool) && KeepsLost(old(s.pool), s.pool) && KeepsStrays(old(s.pool), s.pool)
    ensures r.Fail? ==> r == Fail(Stopped)
    ensures r.Pass? ==> Clean(s.pool) && Reconciled(s.pool, now) == s.pool
    ensures r.Pass? ==> lost == set id | id in old(s.pool).dirs && IsLost(old(s.pool), id)
    ensures r.Pass? ==> forall id ::
      id in lost <==> id in old(s.pool).dirs && (!ValidEnvID(id) || Stray(old(s.pool), id))
    ensures r.Pass? ==> forall id | id in s.pool.dirs :: id in s.pool.rows || id in lost
  {
    hide Reconciled, KeepsLost, Clean, ValidEnvID;
    ghost var p := s.pool;
    KeepsLostRefl(p);
    for i := 0 to |run|
      invariant Inv(s.pool) && KeepsLost(p, s.pool)
    {
      ghost var q := s.pool;
      Do(s, run[i]);
      KeepsLostTrans(p, q, s.pool);
    }
    s.budget := budget;
    ghost var q := s.pool;
    r, lost := s.Reconcile(now);
    KeepsLostTrans(p, q, s.pool);
    StraysKept(p, s.pool);
    if r.Pass? {
      hide Reconciles, Stray, KeepsStrays;
      forall id ensures IsLost(p, id) <==> !ValidEnvID(id) || Stray(p, id) {
        LostIsStray(p, id);
      }
      ReconciledIsClean(q, now);
      ReconcileTwice(q, now);
      LostAll(p, q);
      LostAll(p, s.pool);
      forall id | id in s.pool.dirs ensures id in s.pool.rows || id in lost {
        assert !Garbage(s.pool, id);
      }
    }
  }

  lemma LostAll(p: Pool, q: Pool)
    requires KeepsLost(p, q)
    ensures (set id | id in p.dirs && IsLost(p, id)) == (set id | id in q.dirs && IsLost(q, id))
  {
  }

  // ----------------------------------------------------------------- recovery

  /** A Reconcile that is cut off after so many steps. */
  datatype Try = Try(now: int, budget: nat)

  /** Reconciles that are cut off, one after another, then one that isn't. It
      leaves what it would have left of the pool before all of them, but for
      the times of snapshots found without a row, and over a day after the
      first for pre-restore snapshots found so. Those with a row stay with
      their times, but the pre-restore ones over a day old at the last. */
  method Recover(p: Pool, tries: seq<Try>, first: int, now: int) returns (f: Pool)
    requires Inv(p) && first <= now && forall i | 0 <= i < |tries| :: first <= tries[i].now <= now
    ensures Inv(f) && Clean(f) && KeepsLost(p, f) && Alike(Reconciled(p, now), f, now <= first + PRE_RESTORE_KEEP)
    ensures SnapshotsKept(p, f, now)
    ensures forall id :: !Garbage(f, id)
  {
    hide Reconciled, KeepsLost, Clean, Alike, Resumes, AllStillKept, SnapshotsKept;
    KeepsLostRefl(p);
    AllKeptAtFirst(p, now);
    f := p;
    ghost var all := now <= first + PRE_RESTORE_KEEP;
    ReconciledAlike(p, now, all);
    for i := 0 to |tries|
      invariant Inv(f) && KeepsLost(p, f) && Alike(Reconciled(p, now), Reconciled(f, now), all)
      invariant AllStillKept(p, f, now)
    {
      ghost var q := f;
      var s := new Store(f, tries[i].budget, false);
      var _, _ := s.Reconcile(tries[i].now);
      f := s.pool;
      KeepsLostTrans(p, q, f);
      AllKeptOn(p, q, f, tries[i].now, now);
      ResumesLater(q, f, tries[i].now, now);
      AlikeTrans(Reconciled(p, now), Reconciled(q, now), Reconciled(f, now), all,
        now <= tries[i].now + PRE_RESTORE_KEEP);
      AlikeLess(Reconciled(p, now), Reconciled(f, now), all && now <= tries[i].now + PRE_RESTORE_KEEP, all);
    }
    ghost var q := f;
    var s := new Store(f, 0, true);
    var _, _ := s.Reconcile(now);
    f := s.pool;
    KeepsLostTrans(p, q, f);
    AllKeptAtLast(p, q, now);
    ReconciledIsClean(q, now);
  }

  lemma ReconciledAlike(p: Pool, now: int, all: bool)
    requires Inv(p)
    ensures Alike(Reconciled(p, now), Reconciled(p, now), all)
  {
    hide Reconciled, Alike, Clean, KeepsLost;
    ReconciledIsClean(p, now);
    AlikeRefl(Reconciled(p, now), all);
  }

  lemma ResumesLater(p: Pool, q: Pool, now: int, t: int)
    requires Resumes(p, q, now) && t >= now
    ensures Alike(Reconciled(p, t), Reconciled(q, t), t <= now + PRE_RESTORE_KEEP)
  {
    hide Reconciled, Alike;
  }

  lemma AlikeLess(p: Pool, q: Pool, all: bool, less: bool)
    requires Alike(p, q, all) && (less ==> all)
    ensures Alike(p, q, less)
  {
  }

  /** Delete is all or nothing: cut off anywhere and recovered from, the pool is
      what a Reconcile would have left of the one before, or of that without
      the environment. */
  method DeleteRecovered(p: Pool, id: string, budget: nat, tries: seq<Try>, first: int, now: int) returns (f: Pool)
    requires Inv(p) && first <= now && forall i | 0 <= i < |tries| :: first <= tries[i].now <= now
    ensures Inv(f) && Clean(f) && KeepsLost(p, f)
    ensures var all := now <= first + PRE_RESTORE_KEEP;
      || Alike(Reconciled(p, now), f, all)
      || (id in p.rows && id in p.dirs && Inv(Deleted(p, id)) && Alike(Reconciled(Deleted(p, id), now), f, all))
  {
    assert forall i | i in p.rows :: i in p.dirs;
    hide Reconciled, KeepsLost, Clean, Alike;
    var s := new Store(p, budget, false);
    var _ := s.Delete(id, now);
    var q := s.pool;
    f := Recover(q, tries, first, now);
    KeepsLostTrans(p, q, f);
  }

  /** A restore at time at, cut off anywhere and recovered from: see Survived.
      The same restore can be made again if and only if it wasn't to a
      pre-restore snapshot over a day old; and made again, it completes. */
  method RestoreRecovered(p: Pool, id: string, snap: string, pre: string, at: int, budget: nat,
                          tries: seq<Try>, first: int, now: int, next: string)
    returns (f: Pool, again: Outcome, g: Pool)
    requires CanRestore(p, id, snap) && at <= first <= now
    requires forall i | 0 <= i < |tries| :: first <= tries[i].now <= now
    requires forall n | n in {pre, next} :: ValidSnapID(n) && IsPreRestore(n)
    requires pre !in p.dirs[id].snaps.value && pre !in p.rows[id].snaps
    requires forall path | p.rows[id].workspace == At(path) :: !Doomed(p, path)
    ensures Survived(p, f, id, snap, pre, at, now)
    ensures Repeatable(p, f, id, snap) <==> !(IsPreRestore(snap) && p.rows[id].snaps[snap] < now - PRE_RESTORE_KEEP)
    ensures CanRestore(f, id, snap) && next !in f.dirs[id].snaps.value && next !in f.rows[id].snaps ==>
      again.Pass? && Restored(f, g, id, snap, next, now)
  {
    hide Reconciled, KeepsLost, Clean, Alike, IsPreRestore, ValidSnapID, Survived, Doomed, Repeatable, SnapshotsKept;
    var s := new Store(p, budget, false);
    var _ := s.Restore(id, snap, at, pre);
    var q := s.pool;
    f := Recover(q, tries, first, now);
    RestoreSurvives(p, q, id, snap, pre, at, now);
    AlikeSurvives(p, Reconciled(q, now), f, id, snap, pre, at, now, now <= first + PRE_RESTORE_KEEP);
    RepeatableExact(p, q, f, id, snap, pre, at, now);
    var s2 := new Store(f, 0, true);
    again, g := Pass, f;
    if id in f.rows && id in f.dirs && f.dirs[id].snaps.Some? && next !in f.dirs[id].snaps.value &&
      next !in f.rows[id].snaps {
      again := s2.Restore(id, snap, now, next);
      g := s2.pool;
    }
  }

  /** A create that adopts the worktree at path, over a golden snapshot or not,
      cut off anywhere and recovered from; then the same create. That completes,
      and the workspace is a subvolume with every file and symlink the worktree
      had. */
  method AdoptAgain(p: Pool, id: string, opts: CreateOptions, path: string, git: string, partly: Tree, budget: nat,
                    tries: seq<Try>, first: int, now: int)
    returns (r: Outcome, g: Pool)
    requires Inv(p) && first <= now && forall i | 0 <= i < |tries| :: first <= tries[i].now <= now
    requires ValidEnvID(id) && id !in p.rows && opts.workspace == Some(path) && opts.seed.None? && opts.fork.None?
    requires WorkAt(p, path).Plain? && !Refused(p, id, opts)
    requires opts.from.Some? ==> opts.from.value.snapshot.Some? && !IsPreRestore(opts.from.value.snapshot.value)
    requires forall i | Garbage(p, i) && p.dirs[i].marker == Marked(Some(At(path))) :: i == id
    ensures r.Pass? && id in g.rows && g.rows[id].workspace == At(path)
    ensures WorkAt(g, path).Subvol? && HoldsWork(WorkAt(g, path).tree, WorkAt(p, path).tree)
  {
    assert !Lost(p, id);
    hide Reconciled, KeepsLost, Clean, Alike, IsPreRestore, ValidEnvID, HoldsWork, Creating, Refused, Made, Inv;
    var s := new Store(p, budget, false);
    var _ := Create(s, id, opts, git, false, partly);
    var q := s.pool;
    var f := Recover(q, tries, first, now);
    ghost var all := now <= first + PRE_RESTORE_KEEP;
    AdoptReconciled(p, q, id, opts, path, now);
    AdoptAlike(Reconciled(q, now), f, id, path, all);
    CleanUnnamed(f, id, path);
    KeptHolds(WorkAt(p, path), WorkAt(f, path));
    if id !in f.rows {
      StillNotRefused(p, q, f, id, opts, path, now, all);
    }
    s := new Store(f, 0, true);
    r := Create(s, id, opts, git, false, partly);
    g := s.pool;
    KeptHolds(WorkAt(f, path), WorkAt(g, path));
  }

  lemma AdoptAlike(a: Pool, f: Pool, id: string, path: string, all: bool)
    requires Alike(a, f, all)
    requires !Lost(a, id)
    requires id in a.dirs ==> id in a.rows && a.rows[id].workspace == At(path) && a.dirs[id].adoptNew.Missing?
    ensures WorkAt(f, path) == WorkAt(a, path) && !Lost(f, id)
    ensures id in f.dirs ==> id in f.rows && f.rows[id].workspace == At(path) && f.dirs[id].adoptNew.Missing?
    ensures id in f.rows ==> id in f.dirs
  {
    hide IsPreRestore;
    if id in a.rows {
      assert SnapsAlike(a.dirs[id], a.rows[id], f.dirs[id], f.rows[id], all);
      assert f.rows[id].workspace == f.rows[id].(snaps := map[]).workspace == a.rows[id].(snaps := map[]).workspace;
      assert f.dirs[id].adoptNew == f.dirs[id].(snaps := None).adoptNew == a.dirs[id].(snaps := None).adoptNew;
    }
  }

  lemma CleanUnnamed(f: Pool, id: string, path: string)
    requires Clean(f) && (id in f.dirs ==> id in f.rows)
    ensures !IsNamed(f, id, path)
  {
  }

  lemma KeptHolds(before: Place, after: Place)
    requires PlaceKept(before, after)
    ensures before.Plain? && after.Subvol? ==> HoldsWork(after.tree, before.tree)
    ensures before.Plain? ==> after == before || after.Subvol?
    ensures before.Subvol? ==> after == before
  {
  }

  /** A readopt cut off anywhere and recovered from; then another, which
      completes. The workspace is a subvolume with the work that was there, and
      the snapshots are those a Reconcile would have left anyhow. */
  method ReadoptAgain(p: Pool, id: string, git: string, partly: Tree, budget: nat, tries: seq<Try>, first: int,
    now: int)
    returns (r: Outcome, g: Pool)
    requires Inv(p) && first <= now && forall i | 0 <= i < |tries| :: first <= tries[i].now <= now
    requires id in p.rows && p.rows[id].workspace.At? && !Doomed(p, p.rows[id].workspace.path)
    requires !WorkAt(p, p.rows[id].workspace.path).NotDir?
    ensures r.Pass? && id in g.rows && g.rows[id].workspace == p.rows[id].workspace
    ensures var path := p.rows[id].workspace.path;
      WorkAt(g, path).Subvol? && (WorkAt(p, path).Plain? ==> HoldsWork(WorkAt(g, path).tree, WorkAt(p, path).tree))
    ensures forall n | now <= first + PRE_RESTORE_KEEP || !IsPreRestore(n) ::
      n in g.rows[id].snaps <==> n in Reconciled(p, now).rows[id].snaps
  {
    var path := p.rows[id].workspace.path;
    hide Reconciled, KeepsLost, Clean, Alike, IsPreRestore, ValidEnvID, HoldsWork, Doomed, Inv, PlaceKept;
    var s := new Store(p, budget, false);
    var _ := Readopt(s, id, git, partly);
    var q := s.pool;
    var f := Recover(q, tries, first, now);
    ReadoptSurvives(p, q, id, now);
    ReadoptAlike(Reconciled(q, now), f, id, now <= first + PRE_RESTORE_KEEP);
    AlikeWorkspace(q, f, id, now, now <= first + PRE_RESTORE_KEEP);
    KeptHolds(WorkAt(p, path), WorkAt(f, path));
    s := new Store(f, 0, true);
    r := Readopt(s, id, git, partly);
    g := s.pool;
    KeptHolds(WorkAt(f, path), WorkAt(g, path));
  }

  lemma ReadoptAlike(a: Pool, f: Pool, id: string, all: bool)
    requires Alike(a, f, all) && id in a.rows && id in a.dirs && a.dirs[id].adoptNew.Missing?
    ensures f.work == a.work && id in f.rows && id in f.dirs && f.dirs[id].adoptNew.Missing?
    ensures forall n | all || !IsPreRestore(n) :: n in f.rows[id].snaps <==> n in a.rows[id].snaps
  {
    hide IsPreRestore;
    assert SnapsAlike(a.dirs[id], a.rows[id], f.dirs[id], f.rows[id], all);
    assert f.dirs[id].adoptNew == f.dirs[id].(snaps := None).adoptNew == a.dirs[id].(snaps := None).adoptNew;
  }

  /** A delete can take the workspace of an environment made after it. In any
      pool, let environment a's delete stop after its row went, make b at its
      worktree, which completes, and reconcile: b is there, its workspace
      isn't. */
  method DeleteTakesWorkspace(p: Pool, a: string, b: string, path: string, git: string, now: int)
    returns (r: Outcome, g: Pool)
    requires Inv(p) && a in p.rows && p.rows[a].workspace == At(path) && WorkAt(p, path).Subvol?
    requires ValidEnvID(b) && b !in p.rows && b !in p.dirs
    ensures r.Pass? && b in g.rows && g.rows[b].workspace == At(path) && WorkAt(g, path).Missing?
  {
    assert ValidEnvID(a) && a in p.dirs && p.dirs[a].snaps.Some?;
    hide KeepsLost, ValidEnvID, Resumes, Made, Inv, Creating, Denied, HalfDeleted;
    var s := new Store(p, 3, false);
    var _ := s.Delete(a, now);
    var opts := CreateOptions(Some(path), None, None, None);
    NotDenied(p, a, b, path, opts);
    s := new Store(s.pool, 0, true);
    r := Create(s, b, opts, git, false, EMPTY);
    var f := s.pool;
    StillHalf(p, f, a, b, path, opts);
    s := new Store(f, 0, true);
    var _, _ := s.Reconcile(now);
    g := s.pool;
    DeleteTakes(f, a, b, path, now);
  }

  lemma NotDenied(p: Pool, a: string, b: string, path: string, opts: CreateOptions)
    requires Inv(p) && a in p.rows && p.rows[a].workspace == At(path) && WorkAt(p, path).Subvol?
    requires ValidEnvID(b) && b !in p.rows && b !in p.dirs && opts == CreateOptions(Some(path), None, None, None)
    requires Inv(HalfDeleted(p, a))
    ensures !Denied(HalfDeleted(p, a), b, opts, false) && b !in HalfDeleted(p, a).rows
  {
    hide ValidEnvID, IndexedOk;
  }

  lemma StillHalf(p: Pool, f: Pool, a: string, b: string, path: string, opts: CreateOptions)
    requires a in p.rows && a in p.dirs && p.rows[a].workspace == At(path) && ValidEnvID(a) && a != b && b !in p.dirs
    requires opts.workspace == Some(path) && Creating(HalfDeleted(p, a), f, b, opts)
    ensures Garbage(f, a) && f.dirs[a].marker == Marked(Some(At(path)))
  {
    hide ValidEnvID, KeepsLost, Inv, HoldsData;
    TouchesFrame(HalfDeleted(p, a), f, b, PathsOf(At(path)) + Named(HalfDeleted(p, a), b));
  }

  lemma DeleteTakes(f: Pool, a: string, b: string, path: string, now: int)
    requires Inv(f) && Garbage(f, a) && f.dirs[a].marker == Marked(Some(At(path)))
    requires b in f.rows && f.rows[b].workspace == At(path) && WorkAt(f, path).Subvol?
    ensures var g := Reconciled(f, now); b in g.rows && g.rows[b].workspace == At(path) && WorkAt(g, path).Missing?
  {
    assert Doomed(f, path);
  }
}
