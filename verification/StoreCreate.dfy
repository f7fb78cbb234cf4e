/** Making environments (internal/store/create.go): create, readopt and adopt,
    as atomic steps on the pool. */
module StoreCreate {
  import opened Options
  import opened Names
  import opened Trees
  import opened StorePool
  import opened StoreFields
  import opened Store

  /** Snapshot snapshot of environment env; for a fork, None is env's workspace. */
  datatype SnapshotRef = SnapshotRef(env: string, snapshot: Option<string>)

  datatype CreateOptions = CreateOptions(
    workspace: Option<string>,
    seed: Option<Tree>,
    from: Option<SnapshotRef>,
    fork: Option<SnapshotRef>)

  /** The tree ref names, if it is there to be copied. */
  function TreeOf(p: Pool, ref: SnapshotRef): Option<Tree>
    requires forall id | id in p.rows :: id in p.dirs && p.dirs[id].snaps.Some?
  {
    if ref.env !in p.rows then None
    else match ref.snapshot
      case None =>
        var at := PlaceOf(p, ref.env, p.rows[ref.env].workspace);
        if at.Subvol? then Some(at.tree) else None
      case Some(n) =>
        var snaps := p.dirs[ref.env].snaps.value;
        if n in p.rows[ref.env].snaps && n in snaps && snaps[n].Subvol? then Some(snaps[n].tree) else None
  }

  /** What is copied for ref: a subvolume, the environment's workspace or a
      snapshot with a row. */
  ghost predicate IsSource(p: Pool, ref: SnapshotRef, at: Place) {
    && ref.env in p.rows && ref.env in p.dirs && at.Subvol?
    && match ref.snapshot
       case Some(n) =>
         && n in p.rows[ref.env].snaps && p.dirs[ref.env].snaps.Some?
         && n in p.dirs[ref.env].snaps.value && at == p.dirs[ref.env].snaps.value[n]
       case None => match p.rows[ref.env].workspace
         case Own => at == p.dirs[ref.env].live
         case At(path) => path in p.work && at == p.work[path]
  }

  ghost predicate HasSource(p: Pool, ref: SnapshotRef) {
    exists t :: IsSource(p, ref, Subvol(t))
  }

  lemma SourceIsTree(p: Pool, ref: SnapshotRef)
    requires forall id | id in p.rows :: id in p.dirs && p.dirs[id].snaps.Some?
    ensures TreeOf(p, ref).Some? <==> HasSource(p, ref)
    ensures TreeOf(p, ref).Some? ==> IsSource(p, ref, Subvol(TreeOf(p, ref).value))
  {
    if at: Place :| IsSource(p, ref, at) {
      assert TreeOf(p, ref) == Some(at.tree);
    }
  }

  /** adopt: the plain directory at w becomes a subvolume with its files, over
      those of the golden tree from. partly is what a copy that stops has made. */
  method Adopt(s: Store, id: string, w: Workspace, from: Option<Tree>, partly: Tree) returns (r: Outcome)
    requires Inv(s.pool) && ValidEnvID(id) && Covered(s.pool, id) && PlaceOf(s.pool, id, w).Plain?
    requires w.At?
    modifies s
    ensures Adopting(old(s.pool), s.pool, id, w) && Covered(s.pool, id)
    ensures r.Pass? ==> s.pool.dirs[id].adoptNew.Missing? && old(s.pool).dirs[id].adoptNew.Missing?
    ensures r.Pass? ==> PlaceOf(s.pool, id, w) == Subvol(Adopted(PlaceOf(old(s.pool), id, w).tree, from))
    ensures r.Fail? ==>
      (r == Fail(Stopped) && s.Spent()) || (r == Fail(Exists) && !old(s.pool).dirs[id].adoptNew.Missing?)
  {
    hide Reconciled, KeepsLost, HoldsWork, Merge;
    ghost var p := s.pool;
    var work := PlaceOf(s.pool, id, w).tree;
    KeepsLostRefl(p);
    if !s.pool.dirs[id].adoptNew.Missing? {
      return Fail(Exists);
    }
    :- Prepare(s, id, w, Subvol(if from.Some? then from.value else EMPTY), p);
    :- Prepare(s, id, w, Subvol(partly), p);
    :- Prepare(s, id, w, Subvol(Adopted(work, from)), p);
    AdoptedHolds(work, from);
    var half := WithDir(s.pool, id, s.pool.dirs[id].(adoptNew := Plain(work)));
    AdoptNewStep(p, s.pool, id, w, Plain(work));
    AdoptPlaceStep(p, half, id, w, Subvol(Adopted(work, from)));
    :- s.Commit(WithPlace(half, id, w, Subvol(Adopted(work, from))));
    :- Prepare(s, id, w, Missing, p);
    r := Pass;
  }

  /** What an adopt of work makes of it: a copy, or an overlay of golden's. */
  function Adopted(work: Tree, golden: Option<Tree>): Tree {
    if golden.Some? then Merge(golden.value, work) else work
  }

  lemma AdoptedHolds(work: Tree, golden: Option<Tree>)
    ensures HoldsWork(Adopted(work, golden), work)
  {
    if golden.Some? {
      MergeHoldsWork(golden.value, work);
    }
  }

  /** One step at adopt.new. */
  method Prepare(s: Store, id: string, w: Workspace, at: Place, ghost p: Pool) returns (r: Outcome)
    requires Adopting(p, s.pool, id, w) && ValidEnvID(id) && Covered(s.pool, id)
    modifies s
    ensures Adopting(p, s.pool, id, w) && Covered(s.pool, id)
    ensures r.Pass? ==> s.pool == WithDir(old(s.pool), id, old(s.pool).dirs[id].(adoptNew := at))
    ensures r.Fail? ==> r == Fail(Stopped) && s.pool == old(s.pool) && s.Spent()
  {
    AdoptNewStep(p, s.pool, id, w, at);
    hide Adopting;
    r := s.Commit(WithDir(s.pool, id, s.pool.dirs[id].(adoptNew := at)));
  }

  /** makeWorkspace: keeps what is there. */
  method MakeWorkspace(s: Store, id: string, w: Workspace, from: Option<Tree>, partly: Tree) returns (r: Outcome)
    requires Inv(s.pool) && ValidEnvID(id) && Covered(s.pool, id)
    requires w.Own? ==> PlaceOf(s.pool, id, w).Missing? || PlaceOf(s.pool, id, w).Subvol?
    modifies s
    ensures Adopting(old(s.pool), s.pool, id, w) && Covered(s.pool, id)
    ensures r.Pass? ==> PlaceOf(s.pool, id, w).Subvol?
    ensures r.Pass? ==>
      s.pool.dirs[id].adoptNew == if PlaceOf(old(s.pool), id, w).Plain? then Missing else old(s.pool).dirs[id].adoptNew
    ensures r.Pass? ==> var at := PlaceOf(old(s.pool), id, w);
      PlaceOf(s.pool, id, w) == if at.Missing? then Subvol(EMPTY)
        else if at.Plain? then Subvol(Adopted(at.tree, from)) else at
    ensures r.Pass? ==> !InTheWay(old(s.pool), id, w)
    ensures r.Fail? ==>
      || (r == Fail(Stopped) && s.Spent())
      || (r == Fail(if PlaceOf(old(s.pool), id, w).NotDir? then InvalidPath else Exists) &&
        InTheWay(old(s.pool), id, w))
  {
    hide Reconciled, KeepsLost, HoldsWork, Merge;
    KeepsLostRefl(s.pool);
    match PlaceOf(s.pool, id, w)
    case Missing =>
      AdoptPlaceStep(s.pool, s.pool, id, w, Subvol(EMPTY));
      :- s.Commit(WithPlace(s.pool, id, w, Subvol(EMPTY)));
      r := Pass;
    case NotDir =>
      r := Fail(InvalidPath);
    case Subvol(_) =>
      r := Pass;
    case Plain(_) =>
      r := Adopt(s, id, w, from, partly);
  }

  /** Why no workspace can be made at w: a file is there, or a plain directory
      to adopt and something at adopt.new. */
  predicate InTheWay(p: Pool, id: string, w: Workspace)
    requires id in p.dirs
  {
    PlaceOf(p, id, w).NotDir? || (PlaceOf(p, id, w).Plain? && !p.dirs[id].adoptNew.Missing?)
  }

  /** A readopt of environment id from p, wherever it stopped in q. */
  ghost predicate Readopting(p: Pool, q: Pool, id: string) {
    && Inv(p) && Inv(q) && KeepsLost(p, q) && id in p.rows && id in q.rows && id in q.dirs
    && var w := p.rows[id].workspace;
    && OnlyTouches(p, q, id, PathsOf(w))
    && q.rows[id] == p.rows[id].(git := q.rows[id].git)
    && q.dirs[id] == p.dirs[id].(adoptNew := q.dirs[id].adoptNew)
    && PlaceKept(PlaceOf(p, id, w), PlaceOf(q, id, w))
  }

  /** A readopt cut off anywhere, then reconciled: the work is at its path, the
      snapshots are those a Reconcile would have left anyhow, and nothing is in
      the way of another readopt. */
  lemma ReadoptSurvives(p: Pool, q: Pool, id: string, now: int)
    requires Readopting(p, q, id) && p.rows[id].workspace.At? && !Doomed(p, p.rows[id].workspace.path)
    ensures var f, path := Reconciled(q, now), p.rows[id].workspace.path;
      && PlaceKept(WorkAt(p, path), WorkAt(f, path))
      && id in f.rows && id in f.dirs && f.dirs[id].adoptNew.Missing?
      && f.rows[id].snaps == Reconciled(p, now).rows[id].snaps && f.dirs[id].snaps == Reconciled(p, now).dirs[id].snaps
  {
    hide HoldsWork, Merge, ValidEnvID;
    var path := p.rows[id].workspace.path;
    TouchesFrame(p, q, id, {path});
    assert !Doomed(q, path);
    assert Reconciled(q, now).dirs[id] == SettledDir(q.dirs[id], q.rows[id], now);
    assert Reconciled(p, now).dirs[id] == SettledDir(p.dirs[id], p.rows[id], now);
  }

  /** A readopt that completed: an own workspace and a subvolume are left alone;
      a plain directory is copied, and its git folder recorded. */
  ghost predicate Readopted(p: Pool, q: Pool, id: string, git: string) {
    && id in p.rows
    && match p.rows[id].workspace
       case Own => q == p
       case At(path) =>
         if path in p.work && p.work[path].Subvol? then q == p
         else
           && id in q.rows && q.rows[id] == p.rows[id].(git := git) && path in q.work
           && q.work[path] == Subvol(if path in p.work && p.work[path].Plain? then p.work[path].tree else EMPTY)
  }

  /** readopt: sees to it that the workspace at a path is a subvolume. */
  method Readopt(s: Store, id: string, git: string, partly: Tree) returns (r: Outcome)
    requires Inv(s.pool) && id in s.pool.rows
    modifies s
    ensures Readopting(old(s.pool), s.pool, id)
    ensures r.Pass? ==> Readopted(old(s.pool), s.pool, id, git)
    ensures var w := old(s.pool).rows[id].workspace;
      && (r.Pass? && w.At? ==> PlaceOf(s.pool, id, w).Subvol? && !InTheWay(old(s.pool), id, w))
      && (r.Fail? ==>
            (r == Fail(Stopped) && s.Spent()) || (r.error != Stopped && w.At? && InTheWay(old(s.pool), id, w)))
  {
    assert id in s.pool.dirs && ValidEnvID(id) && IndexedOk(s.pool.dirs[id], s.pool.rows[id]);
    hide KeepsLost, PlaceKept, Merge, Inv, Adopting, Readopting, ValidEnvID;
    ReadoptingNothing(s.pool, id);
    var w := s.pool.rows[id].workspace;
    if w.Own? || PlaceOf(s.pool, id, w).Subvol? {
      return Pass;
    }
    ghost var p := s.pool;
    r := MakeWorkspace(s, id, w, None, partly);
    ReadoptingAdopt(p, s.pool, id, git);
    if r.Fail? { return; }
    r := s.Commit(WithRow(s.pool, id, s.pool.rows[id].(git := git)));
  }

  lemma ReadoptingAdopt(p: Pool, q: Pool, id: string, git: string)
    requires Inv(p) && id in p.rows && p.rows[id].workspace.At? && Adopting(p, q, id, p.rows[id].workspace)
    ensures q.rows == p.rows && id in q.dirs && Readopting(p, q, id)
    ensures Readopting(p, WithRow(q, id, q.rows[id].(git := git)), id)
  {
    RowFacts(p, id);
    ReadoptRow(q, id, git);
    hide KeepsLost, PlaceKept, Inv;
    var row := q.rows[id].(git := git);
    KeepsLostTrans(p, q, WithRow(q, id, row));
    assert OnlyTouches(p, q, id, PathsOf(p.rows[id].workspace));
    TouchesEnv(p, q, id, q.dirs[id], row);
    hide OnlyTouches;
  }

  lemma ReadoptRow(q: Pool, id: string, git: string)
    requires Inv(q) && id in q.rows
    ensures id in q.dirs
    ensures var n := WithRow(q, id, q.rows[id].(git := git)); Inv(n) && KeepsLost(q, n)
  {
    hide KeepsLost, ValidEnvID;
    IndexedStep(q, id, q.dirs[id], q.rows[id].(git := git));
    assert q.dirs[id := q.dirs[id]] == q.dirs;
  }

  /** A directory made for a new environment, with its marker. */
  const FRESH := NEW_DIR.(marker := Marked(None), snaps := Some(map[]), claude := Some(EMPTY))

  /** Environment id is being made in q, begun with no directory in p. */
  ghost predicate Making(p: Pool, q: Pool, id: string, w: Workspace) {
    && Inv(p) && Inv(q) && KeepsLost(p, q) && ValidEnvID(id) && id !in p.dirs && id !in p.rows
    && q.rows == p.rows
    && q.dirs - {id} == p.dirs && q.work - PathsOf(w) == p.work - PathsOf(w)
    && (id in q.dirs ==> q.dirs[id].marker == Marked(None) || q.dirs[id] == NEW_DIR)
  }

  lemma MakingDir(p: Pool, q: Pool, id: string, w: Workspace, d: EnvDir)
    requires Making(p, q, id, w) && (d == NEW_DIR || d.marker == Marked(None))
    ensures Making(p, WithDir(q, id, d), id, w)
  {
    hide Reconciled, KeepsLost, ValidEnvID;
    assert !Lost(q, id);
    DirStep(q, id, d);
    KeepsLostTrans(p, q, WithDir(q, id, d));
    hide Inv;
    assert (q.dirs[id := d]) - {id} == q.dirs - {id};
  }

  lemma MakingAdopt(p: Pool, q: Pool, q': Pool, id: string, w: Workspace)
    requires Making(p, q, id, w) && Adopting(q, q', id, w) && id in q.dirs && q.dirs[id].marker == Marked(None)
    ensures Making(p, q', id, w)
  {
    hide Reconciled, KeepsLost, ValidEnvID, PlaceKept;
    KeepsLostTrans(p, q, q');
    hide Inv;
  }

  /** MkdirAll of the directory, the marker, snaps/ and claude/. */
  method MakeDir(s: Store, id: string, w: Workspace) returns (r: Outcome)
    requires Inv(s.pool) && ValidEnvID(id) && id !in s.pool.dirs
    modifies s
    ensures Making(old(s.pool), s.pool, id, w) && s.pool.work == old(s.pool).work
    ensures r.Pass? ==> s.pool == WithDir(old(s.pool), id, FRESH)
    ensures r.Fail? ==> r == Fail(Stopped) && s.Spent()
  {
    hide Reconciled, ValidEnvID, KeepsLost;
    var p := s.pool;
    KeepsLostRefl(p);
    assert p.dirs - {id} == p.dirs;
    assert Making(p, p, id, w);
    hide Making, Inv;
    var d := NEW_DIR;
    MakingDir(p, p, id, w, d);
    :- s.Commit(WithDir(p, id, d));
    d := d.(marker := Marked(None));
    MakingDir(p, p, id, w, d);
    :- s.Commit(WithDir(p, id, d));
    d := d.(snaps := Some(map[]));
    MakingDir(p, p, id, w, d);
    :- s.Commit(WithDir(p, id, d));
    MakingDir(p, p, id, w, FRESH);
    :- s.Commit(WithDir(p, id, FRESH));
    r := Pass;
  }

  /** The tree a new workspace starts with, where at stood before: a fork's is
      its source's; nothing becomes empty, a subvolume stays, and a plain
      directory is laid over the golden snapshot or copied. */
  ghost predicate StartsWith(p: Pool, at: Place, opts: CreateOptions, tree: Tree) {
    if opts.fork.Some? then IsSource(p, opts.fork.value, Subvol(tree))
    else match at
      case Missing => tree == EMPTY
      case NotDir => false
      case Subvol(t) => tree == t
      case Plain(work) =>
        if opts.from.None? then tree == work
        else exists golden :: IsSource(p, opts.from.value, Subvol(golden)) && tree == Merge(golden, work)
  }

  /** The golden snapshot or the source of the fork isn't there. */
  ghost predicate NoSource(p: Pool, opts: CreateOptions) {
    || (opts.from.Some? && !HasSource(p, opts.from.value))
    || (opts.fork.Some? && !HasSource(p, opts.fork.value))
  }

  /** The workspace of a new environment: a fork's copy, or made. */
  method FillWorkspace(s: Store, id: string, w: Workspace, opts: CreateOptions, partly: Tree, ghost p: Pool)
    returns (r: Outcome)
    requires Making(p, s.pool, id, w) && id in s.pool.dirs && s.pool.dirs[id] == FRESH
    requires opts.fork.Some? ==> w.Own?
    modifies s
    ensures Making(p, s.pool, id, w) && id in s.pool.dirs && s.pool.dirs[id].marker == Marked(None)
    ensures s.pool.dirs[id] == FRESH.(live := s.pool.dirs[id].live, adoptNew := s.pool.dirs[id].adoptNew)
    ensures opts.fork.None? ==> PlaceKept(PlaceOf(old(s.pool), id, w), PlaceOf(s.pool, id, w))
    ensures r.Pass? ==> s.pool.dirs[id].adoptNew.Missing? && PlaceOf(s.pool, id, w).Subvol?
    ensures r.Pass? ==> StartsWith(old(s.pool), PlaceOf(old(s.pool), id, w), opts, PlaceOf(s.pool, id, w).tree)
    ensures w.At? ==> s.pool.dirs[id].live.Missing?
    ensures r.Pass? ==> !NoSource(old(s.pool), opts) && !PlaceOf(old(s.pool), id, w).NotDir?
    ensures r.Fail? ==>
      || (r == Fail(Stopped) && s.Spent())
      || (r == Fail(NotFound) && NoSource(old(s.pool), opts))
      || (r == Fail(InvalidPath) && PlaceOf(old(s.pool), id, w).NotDir?)
  {
    RowsHaveDirs(s.pool);
    hide Reconciled, KeepsLost, HoldsWork, Merge, ValidEnvID, IsSource, TreeOf;
    if opts.from.Some? {
      SourceIsTree(s.pool, opts.from.value);
    }
    if opts.fork.Some? {
      SourceIsTree(s.pool, opts.fork.value);
    }
    var from: Option<Tree> := None;
    if opts.from.Some? {
      from := TreeOf(s.pool, opts.from.value);
      if from.None? {
        return Fail(NotFound);
      }
    }
    if opts.fork.Some? {
      var copy := TreeOf(s.pool, opts.fork.value);
      if copy.None? {
        return Fail(NotFound);
      }
      MakingDir(p, s.pool, id, w, FRESH.(live := Subvol(copy.value)));
      r := s.Commit(WithDir(s.pool, id, FRESH.(live := Subvol(copy.value))));
    } else {
      r := MakeWorkspace(s, id, w, from, partly);
      MakingAdopt(p, old(s.pool), s.pool, id, w);
    }
  }

  /** untar: the seed's files over what is there, or some of them. */
  method Seed(s: Store, id: string, w: Workspace, seed: Tree, partly: Tree, ghost p: Pool) returns (r: Outcome)
    requires Making(p, s.pool, id, w) && id in s.pool.dirs && s.pool.dirs[id].marker == Marked(None)
    requires PlaceOf(s.pool, id, w).Subvol?
    modifies s
    ensures Making(p, s.pool, id, w) && id in s.pool.dirs
    ensures s.pool.dirs[id] == old(s.pool).dirs[id].(live := s.pool.dirs[id].live)
    ensures w.At? ==> s.pool.dirs[id].live == old(s.pool).dirs[id].live
    ensures PlaceOf(s.pool, id, w).Subvol?
    ensures r.Pass? ==> PlaceOf(s.pool, id, w).tree == PlaceOf(old(s.pool), id, w).tree + seed
    ensures r.Fail? ==> r == Fail(Stopped) && s.Spent()
  {
    hide Reconciled, KeepsLost, ValidEnvID;
    var tree := PlaceOf(s.pool, id, w).tree;
    MakingPlace(p, s.pool, id, w, partly);
    :- s.Commit(WithPlace(s.pool, id, w, Subvol(partly)));
    MakingPlace(p, s.pool, id, w, tree + seed);
    :- s.Commit(WithPlace(s.pool, id, w, Subvol(tree + seed)));
    r := Pass;
  }

  lemma MakingPlace(p: Pool, q: Pool, id: string, w: Workspace, tree: Tree)
    requires Making(p, q, id, w) && id in q.dirs && q.dirs[id].marker == Marked(None)
    ensures Making(p, WithPlace(q, id, w, Subvol(tree)), id, w)
  {
    hide Reconciled, KeepsLost, ValidEnvID;
    PlaceStep(q, id, w, Subvol(tree));
    KeepsLostTrans(p, q, WithPlace(q, id, w, Subvol(tree)));
    hide Inv;
  }

  /** From q0, made from p, environment id gets its row and loses its marker. */
  ghost predicate Indexing(p: Pool, q0: Pool, q: Pool, id: string, row: Row) {
    && Inv(q) && KeepsLost(p, q) && q.work == q0.work
    && q.dirs - {id} == p.dirs && q.rows - {id} == p.rows
    && id in q0.dirs && id in q.dirs && q.dirs[id] == q0.dirs[id].(marker := q.dirs[id].marker)
    && (id in q.rows ==> q.rows[id] == row)
    && (id !in q.rows ==> q == q0)
  }

  /** InsertEnv, then the marker goes. */
  method Index(s: Store, id: string, w: Workspace, git: string, ghost p: Pool) returns (r: Outcome)
    requires Making(p, s.pool, id, w) && id in s.pool.dirs
    requires s.pool.dirs[id] == FRESH.(live := s.pool.dirs[id].live) && PlaceOf(s.pool, id, w).Subvol?
    requires forall other | other in p.rows :: p.rows[other].workspace != w || w.Own?
    modifies s
    ensures Indexing(p, old(s.pool), s.pool, id, Row(w, git, map[]))
    ensures r.Pass? ==> id in s.pool.rows && s.pool.dirs[id].marker.Unmarked?
    ensures r.Fail? ==> r == Fail(Stopped) && s.Spent()
  {
    var row := Row(w, git, map[]);
    IndexingRow(p, s.pool, id, w, row);
    hide Indexing, Making, Inv, Reconciled;
    :- s.Commit(WithRow(s.pool, id, row));
    IndexingUnmark(p, old(s.pool), s.pool, id, row);
    :- s.Commit(WithDir(s.pool, id, s.pool.dirs[id].(marker := Unmarked)));
    r := Pass;
  }

  lemma IndexingRow(p: Pool, q: Pool, id: string, w: Workspace, row: Row)
    requires Making(p, q, id, w) && id in q.dirs && q.dirs[id] == FRESH.(live := q.dirs[id].live) &&
      PlaceOf(q, id, w).Subvol?
    requires row == Row(w, row.git, map[])
    requires forall other | other in p.rows :: p.rows[other].workspace != w || w.Own?
    ensures Indexing(p, q, q, id, row) && Indexing(p, q, WithRow(q, id, row), id, row)
  {
    hide Reconciled, KeepsLost, ValidEnvID, Doomed;
    InsertStep(p, q, id, row);
    hide Inv;
    assert (q.rows[id := row]) - {id} == q.rows;
    assert q.rows - {id} == q.rows;
  }

  lemma IndexingUnmark(p: Pool, q0: Pool, q: Pool, id: string, row: Row)
    requires Indexing(p, q0, q, id, row) && id in q.rows
    ensures Indexing(p, q0, WithDir(q, id, q.dirs[id].(marker := Unmarked)), id, row)
  {
    hide Reconciled, KeepsLost, ValidEnvID, Doomed;
    var d := q.dirs[id].(marker := Unmarked);
    UnmarkStep(p, q, id, d);
    hide Inv;
    assert (q.dirs[id := d]) - {id} == q.dirs - {id};
  }

  lemma InsertStep(p: Pool, q: Pool, id: string, row: Row)
    requires Inv(q) && KeepsLost(p, q) && ValidEnvID(id) && id in q.dirs && q.dirs[id].marker == Marked(None) &&
      IndexedOk(q.dirs[id], row)
    requires id !in q.rows
    requires forall other | other in q.rows :: q.rows[other].workspace != row.workspace || row.workspace.Own?
    ensures Inv(WithRow(q, id, row)) && KeepsLost(p, WithRow(q, id, row))
  {
  }

  lemma UnmarkStep(p: Pool, q: Pool, id: string, d: EnvDir)
    requires Inv(q) && KeepsLost(p, q) && id in q.rows && d == q.dirs[id].(marker := Unmarked)
    ensures Inv(WithDir(q, id, d)) && KeepsLost(p, WithDir(q, id, d))
  {
    DirStep(q, id, d);
    KeepsLostTrans(p, q, WithDir(q, id, d));
  }

  function WorkspaceOf(opts: CreateOptions): Workspace {
    if opts.workspace.Some? then At(opts.workspace.value) else Own
  }

  /** A create of environment id from p, wherever it stopped in q. */
  ghost predicate Creating(p: Pool, q: Pool, id: string, opts: CreateOptions) {
    var w := WorkspaceOf(opts);
    && Inv(p) && Inv(q) && KeepsLost(p, q)
    && OnlyTouches(p, q, id, PathsOf(w) + Named(p, id))
    // What is at the path is kept, but a subvolume its own delete was to remove.
    && (forall path | w == At(path) && opts.seed.None? && !IsNamed(p, id, path) ::
          PlaceKept(WorkAt(p, path), WorkAt(q, path)))
    // What it leaves names no workspace it has made.
    && (forall path | w == At(path) && WorkAt(p, path).Plain? && path in Named(q, id) && id !in q.rows ::
          WorkAt(q, path) == WorkAt(p, path))
    // An environment with a row is whole.
    && (id in q.rows && id !in p.rows ==>
          q.rows[id] == Row(w, q.rows[id].git, map[]) && id in q.dirs && PlaceOf(q, id, w).Subvol? &&
            q.dirs[id].adoptNew.Missing?)
  }

  lemma CreatingCleared(p: Pool, q: Pool, id: string, opts: CreateOptions)
    requires Inv(p) && id !in p.rows && Inv(q) && KeepsLost(p, q) && OnlyTouches(p, q, id, Named(p, id)) &&
      id !in q.rows
    requires forall path | !IsNamed(p, id, path) :: WorkAt(q, path) == WorkAt(p, path)
    ensures Creating(p, q, id, opts)
  {
    hide Reconciled, KeepsLost, Inv, ValidEnvID, HoldsWork;
    var n, all := Named(p, id), PathsOf(WorkspaceOf(opts)) + Named(p, id);
    assert q.work - all == p.work - all by {
      assert q.work - all == (q.work - n) - all;
      assert p.work - all == (p.work - n) - all;
    }
  }

  /** From the cleared pool on, while it is made. */
  lemma CreatingMade(p: Pool, q: Pool, id: string, opts: CreateOptions)
    requires Inv(p) && id !in p.rows && KeepsLost(p, Cleared(p, id))
    requires Making(Cleared(p, id), q, id, WorkspaceOf(opts))
    requires forall path | WorkspaceOf(opts) == At(path) && opts.seed.None? && !IsNamed(p, id, path) ::
      PlaceKept(WorkAt(p, path), WorkAt(q, path))
    ensures Creating(p, q, id, opts)
  {
    hide Reconciled, KeepsLost, Inv, ValidEnvID, HoldsWork;
    KeepsLostTrans(p, Cleared(p, id), q);
    ClearedWork(p, q, id, PathsOf(WorkspaceOf(opts)));
    assert q.rows - {id} == p.rows - {id};
  }

  lemma ClearedWork(p: Pool, q: Pool, id: string, paths: set<string>)
    requires q.work - paths == Cleared(p, id).work - paths
    ensures q.work - (paths + Named(p, id)) == p.work - (paths + Named(p, id))
  {
    var n := Named(p, id);
    assert q.work - (paths + n) == (q.work - paths) - n;
    assert Cleared(p, id).work - (paths + n) == (Cleared(p, id).work - paths) - n;
    assert Cleared(p, id).work - (paths + n) == p.work - (paths + n);
  }

  lemma CreatingIndexed(p: Pool, q0: Pool, q: Pool, id: string, opts: CreateOptions, git: string)
    requires Inv(p) && id !in p.rows && KeepsLost(p, Cleared(p, id))
    requires Creating(p, q0, id, opts) && id in q0.dirs && PlaceOf(q0, id, WorkspaceOf(opts)).Subvol? &&
      q0.dirs[id].adoptNew.Missing?
    requires Making(Cleared(p, id), q0, id, WorkspaceOf(opts))
    requires Indexing(Cleared(p, id), q0, q, id, Row(WorkspaceOf(opts), git, map[]))
    ensures Creating(p, q, id, opts)
  {
    hide Reconciled, KeepsLost, Inv, ValidEnvID, HoldsWork;
    KeepsLostTrans(p, Cleared(p, id), q);
    ClearedWork(p, q, id, PathsOf(WorkspaceOf(opts)));
  }

  /** create, of an environment the index does not have. */
  method CreateNew(s: Store, id: string, opts: CreateOptions, git: string, partly: Tree) returns (r: Outcome)
    requires Inv(s.pool) && ValidEnvID(id) && id !in s.pool.rows
    requires opts.fork.Some? ==> opts.workspace.None?
    modifies s
    ensures Creating(old(s.pool), s.pool, id, opts)
    ensures Stray(old(s.pool), id) ==> s.pool == old(s.pool) && r.Fail?
    ensures r.Pass? ==> Made(old(s.pool), s.pool, id, opts, git) && !Refused(old(s.pool), id, opts)
    ensures r.Fail? && r.error != Stopped ==> Refused(old(s.pool), id, opts)
    ensures r == Fail(Stopped) ==> s.Spent()
  {
    hide Reconciled, KeepsLost, HoldsWork, Merge, ValidEnvID, Creating, Inv;
    var w := WorkspaceOf(opts);
    ghost var p := s.pool;
    KeepsLostRefl(p);
    CreatingCleared(p, p, id, opts);
    RowsHaveDirs(p);
    if w.At? && exists other | other in s.pool.rows :: s.pool.rows[other].workspace == w {
      return Fail(InvalidPath);
    }
    r := s.ClearLeftovers(id, 0);
    CreatingCleared(p, s.pool, id, opts);
    if r.Fail? { return; }
    assert s.pool == Cleared(p, id);
    r := CreateCleared(s, id, opts, git, partly, p);
  }

  /** Environment id, made with opts from p: its row, its directory without a
      marker or anything in it but perhaps live/, and its workspace, the seed's
      files over the tree it starts with. */
  ghost predicate Made(p: Pool, q: Pool, id: string, opts: CreateOptions, git: string) {
    && id in q.dirs && q.rows == p.rows[id := Row(WorkspaceOf(opts), git, map[])]
    && q.dirs == p.dirs[id := q.dirs[id]]
    && q.dirs[id] == EnvDir(Unmarked, q.dirs[id].live, Missing, Missing, Some(map[]), Some(map[]), None)
    && match opts.workspace
       case None => Filled(p, Missing, opts, q.dirs[id].live)
       case Some(path) =>
         q.dirs[id].live == Missing && path in q.work && Filled(p, Before(p, id, path), opts, q.work[path])
  }

  /** What stands at path when environment id is made: nothing if its own
      unfinished delete names the subvolume that was there. */
  function Before(p: Pool, id: string, path: string): Place {
    if path !in p.work || (id in p.dirs && p.dirs[id].marker == Marked(Some(At(path))) && p.work[path].Subvol?)
    then Missing else p.work[path]
  }

  /** The workspace made where at stood. */
  ghost predicate Filled(p: Pool, at: Place, opts: CreateOptions, made: Place) {
    exists start :: StartsWith(p, at, opts, start) &&
      made == Subvol(if opts.seed.Some? then start + opts.seed.value else start)
  }

  /** The source of a copy isn't environment id, nor what clearing takes. */
  lemma SourceBefore(p: Pool, q: Pool, id: string, ref: SnapshotRef, at: Place)
    requires id !in p.rows && q == WithDir(Cleared(p, id), id, FRESH) && IsSource(q, ref, at)
    ensures IsSource(p, ref, at)
  {
  }

  lemma StartsBefore(p: Pool, q: Pool, id: string, at: Place, opts: CreateOptions, tree: Tree)
    requires id !in p.rows && q == WithDir(Cleared(p, id), id, FRESH) && StartsWith(q, at, opts, tree)
    ensures StartsWith(p, at, opts, tree)
  {
    hide IsSource, Merge, Cleared;
    if opts.fork.Some? {
      SourceBefore(p, q, id, opts.fork.value, Subvol(tree));
    } else if at.Plain? && opts.from.Some? {
      var golden :| IsSource(q, opts.from.value, Subvol(golden)) && tree == Merge(golden, at.tree);
      SourceBefore(p, q, id, opts.from.value, Subvol(golden));
    }
  }

  /** Why a create can fail other than by being stopped: its directory holds
      data the index lost, its workspace is another's or a file, or what it is
      to copy isn't there. */
  ghost predicate Refused(p: Pool, id: string, opts: CreateOptions)
    requires Inv(p) && id !in p.rows
  {
    || Stray(p, id)
    || (opts.workspace.Some? && exists other | other in p.rows :: p.rows[other].workspace == WorkspaceOf(opts))
    || NoSource(Cleared(p, id), opts)
    || (opts.workspace.Some? && WorkAt(p, opts.workspace.value).NotDir?)
  }

  ghost predicate CannotFill(p: Pool, opts: CreateOptions) {
    NoSource(p, opts) || (opts.workspace.Some? && WorkAt(p, opts.workspace.value).NotDir?)
  }

  lemma SameSource(p: Pool, id: string, opts: CreateOptions)
    requires id !in p.rows && id !in p.dirs
    ensures NoSource(WithDir(p, id, FRESH), opts) == NoSource(p, opts)
  {
    var q := WithDir(p, id, FRESH);
    forall ref: SnapshotRef, t: Tree ensures IsSource(q, ref, Subvol(t)) <==> IsSource(p, ref, Subvol(t)) {
    }
    hide IsSource;
    forall ref: SnapshotRef ensures HasSource(q, ref) <==> HasSource(p, ref) {
      if t :| IsSource(p, ref, Subvol(t)) {
        assert IsSource(q, ref, Subvol(t));
      }
    }
  }

  method CreateCleared(s: Store, id: string, opts: CreateOptions, git: string, partly: Tree, ghost p: Pool)
    returns (r: Outcome)
    requires Inv(p) && Inv(s.pool) && ValidEnvID(id) && id !in p.rows && s.pool == Cleared(p, id) &&
      KeepsLost(p, Cleared(p, id))
    requires opts.fork.Some? ==> opts.workspace.None?
    requires WorkspaceOf(opts).At? ==> forall other | other in p.rows :: p.rows[other].workspace != WorkspaceOf(opts)
    modifies s
    ensures Creating(p, s.pool, id, opts)
    ensures r.Pass? ==> Made(p, s.pool, id, opts, git) && !CannotFill(Cleared(p, id), opts)
    ensures r.Fail? && r.error != Stopped ==> CannotFill(Cleared(p, id), opts)
    ensures r == Fail(Stopped) ==> s.Spent()
  {
    hide Reconciled, KeepsLost, HoldsWork, Merge, ValidEnvID, Creating, Inv, Making;
    var w := WorkspaceOf(opts);
    r := MakeDir(s, id, w);
    CreatingMade(p, s.pool, id, opts);
    if r.Fail? { return; }
    RowsHaveDirs(Cleared(p, id));
    SameSource(Cleared(p, id), id, opts);
    r := FillWorkspace(s, id, w, opts, partly, Cleared(p, id));
    CreatingMade(p, s.pool, id, opts);
    if r.Fail? { return; }
    ghost var start := PlaceOf(s.pool, id, w).tree;
    ghost var begun := WithDir(Cleared(p, id), id, FRESH);
    StartsBefore(p, begun, id, PlaceOf(begun, id, w), opts, start);
    hide StartsWith;
    if opts.seed.Some? {
      r := Seed(s, id, w, opts.seed.value, partly, Cleared(p, id));
      CreatingMade(p, s.pool, id, opts);
      if r.Fail? { return; }
    }
    ghost var q := s.pool;
    r := Index(s, id, w, git, Cleared(p, id));
    CreatingIndexed(p, q, s.pool, id, opts, git);
    if r.Pass? {
      IndexedMade(p, q, s.pool, id, opts, git, start);
    }
  }

  lemma IndexedMade(p: Pool, q0: Pool, q: Pool, id: string, opts: CreateOptions, git: string, start: Tree)
    requires id !in p.rows && id in q.rows && id in q.dirs && id in q0.dirs
    requires Indexing(Cleared(p, id), q0, q, id, Row(WorkspaceOf(opts), git, map[])) && q.dirs[id].marker.Unmarked?
    requires q0.dirs[id] == FRESH.(live := q0.dirs[id].live) && (opts.workspace.Some? ==> q0.dirs[id].live.Missing?)
    requires StartsWith(p, PlaceOf(WithDir(Cleared(p, id), id, FRESH), id, WorkspaceOf(opts)), opts, start)
    requires PlaceOf(q0, id, WorkspaceOf(opts)) == Subvol(if opts.seed.Some? then start + opts.seed.value else start)
    ensures Made(p, q, id, opts, git)
  {
    hide StartsWith, Inv, KeepsLost;
    assert q.dirs - {id} == p.dirs - {id};
    DirsBut(q.dirs, p.dirs, id);
    assert q.rows == p.rows[id := q.rows[id]];
  }

  lemma MadeRow(p: Pool, q: Pool, id: string, opts: CreateOptions, git: string)
    requires Made(p, q, id, opts, git)
    ensures id in q.rows && id in q.dirs && q.rows[id].workspace == WorkspaceOf(opts)
    ensures PlaceOf(q, id, WorkspaceOf(opts)).Subvol?
  {
    hide StartsWith;
  }

  lemma RowsHaveDirs(p: Pool)
    requires Inv(p)
    ensures forall i | i in p.rows :: i in p.dirs && p.dirs[i].snaps.Some?
  {
  }

  /** Why Create can fail other than by being stopped. */
  ghost predicate Denied(p: Pool, id: string, opts: CreateOptions, full: bool)
    requires Inv(p)
  {
    if !ValidEnvID(id) then true
    else if id in p.rows then
      var w := p.rows[id].workspace;
      (opts.workspace.Some? && w != WorkspaceOf(opts)) || (w.At? && InTheWay(p, id, w))
    else
      full || Refused(p, id, opts) || (opts.fork.Some? && (opts.workspace.Some? || opts.seed.Some? || opts.from.Some?))
  }

  /** Create: an environment that exists is readopted, another is made. Not
      stopped, it succeeds if and only if nothing denies it. */
  method Create(s: Store, id: string, opts: CreateOptions, git: string, full: bool, partly: Tree) returns (r: Outcome)
    requires Inv(s.pool)
    modifies s
    ensures Inv(s.pool) && KeepsLost(old(s.pool), s.pool)
    ensures r.Fail? ==> if r.error == Stopped then s.Spent() else Denied(old(s.pool), id, opts, full)
    ensures r.Pass? ==> !Denied(old(s.pool), id, opts, full)
    ensures ValidEnvID(id) && id !in old(s.pool).rows ==> Creating(old(s.pool), s.pool, id, opts)
    ensures id in old(s.pool).rows ==> Readopting(old(s.pool), s.pool, id)
    ensures r.Pass? ==> id in s.pool.rows && id in s.pool.dirs
    ensures r.Pass? && opts.workspace.Some? ==>
      s.pool.rows[id].workspace == WorkspaceOf(opts) && PlaceOf(s.pool, id, WorkspaceOf(opts)).Subvol?
    ensures r.Pass? && id !in old(s.pool).rows ==> Made(old(s.pool), s.pool, id, opts, git)
    ensures r.Pass? && id in old(s.pool).rows ==> Readopted(old(s.pool), s.pool, id, git)
    ensures KeepsStrays(old(s.pool), s.pool)
    // What is at the path is kept, but a subvolume the environment's own delete was to remove.
    ensures forall path | opts.workspace == Some(path) && opts.seed.None? && !IsNamed(old(s.pool), id, path) ::
      PlaceKept(WorkAt(old(s.pool), path), WorkAt(s.pool, path))
  {
    hide Reconciled, KeepsLost, HoldsWork, Merge, ValidEnvID, Refused, Made, KeepsStrays, Stray, Readopted;
    KeepsLostRefl(s.pool);
    StraysKept(s.pool, s.pool);
    ReadoptingNothing(s.pool, id);
    if !ValidEnvID(id) {
      return Fail(InvalidID);
    }
    if id in s.pool.rows {
      if opts.workspace.Some? && s.pool.rows[id].workspace != WorkspaceOf(opts) {
        return Fail(InvalidPath);
      }
      r := Readopt(s, id, git, partly);
      StraysKept(old(s.pool), s.pool);
      return;
    }
    CreatingCleared(s.pool, s.pool, id, opts);
    if opts.fork.Some? && (opts.workspace.Some? || opts.seed.Some? || opts.from.Some?) {
      return Fail(InvalidPath);
    }
    if full {
      return Fail(PoolFull);
    }
    r := CreateNew(s, id, opts, git, partly);
    StraysKept(old(s.pool), s.pool);
    if r.Pass? {
      MadeRow(old(s.pool), s.pool, id, opts, git);
    }
  }

  lemma ReadoptingNothing(p: Pool, id: string)
    requires Inv(p)
    ensures id in p.rows ==> Readopting(p, p, id)
  {
    hide HoldsWork;
    KeepsLostRefl(p);
    hide KeepsLost;
    assert forall at :: PlaceKept(at, at);
  }

  // ------------------------------------------------- creating after a recovery

  /** A worktree adopted by a create that was cut off anywhere, then reconciled:
      its work is at its path; the environment is whole or gone. */
  lemma AdoptReconciled(p: Pool, q: Pool, id: string, opts: CreateOptions, path: string, now: int)
    requires Creating(p, q, id, opts) && ValidEnvID(id) && id !in p.rows && !Lost(p, id)
    requires opts.workspace == Some(path) && opts.seed.None? && WorkAt(p, path).Plain?
    requires forall i | Garbage(p, i) && p.dirs[i].marker == Marked(Some(At(path))) :: i == id
    ensures var f := Reconciled(q, now);
      && PlaceKept(WorkAt(p, path), WorkAt(f, path)) && !Lost(f, id)
      && (id in f.dirs ==>
            id in f.rows && f.rows[id].workspace == At(path) && WorkAt(f, path).Subvol? && f.dirs[id].adoptNew.Missing?)
  {
    hide HoldsWork, Merge, ValidEnvID, SettledDir, SettledRow, Clean;
    var f := Reconciled(q, now);
    ReconciledIsClean(q, now);
    TouchesFrame(p, q, id, PathsOf(WorkspaceOf(opts)) + Named(p, id));
    assert WorkAt(q, path).Subvol? ==> !Doomed(q, path);
    assert WorkAt(f, path) == WorkAt(q, path);
    assert !Lost(q, id);
    if id in f.rows {
      SettledRowWorkspace(q.dirs[id], q.rows[id], now);
      assert f.dirs[id].adoptNew.Missing? by { SettledAdopt(q.dirs[id], q.rows[id], now); }
    }
  }

  lemma SettledRowWorkspace(d: EnvDir, row: Row, now: int)
    requires d.snaps.Some?
    ensures SettledRow(d, row, now).workspace == row.workspace
  {
  }

  lemma SettledAdopt(d: EnvDir, row: Row, now: int)
    requires d.snaps.Some?
    ensures SettledDir(d, row, now).adoptNew.Missing?
  {
  }

  /** What a create is refused for is no more after it was cut off and recovered
      from: the other environments have their workspaces, and the snapshot it
      is to start from is there. */
  lemma StillNotRefused(p: Pool, q: Pool, f: Pool, id: string, opts: CreateOptions, path: string, now: int, all: bool)
    requires Creating(p, q, id, opts) && id !in p.rows && !Refused(p, id, opts)
    requires opts.workspace == Some(path) && opts.fork.None?
    requires opts.from.Some? ==> opts.from.value.snapshot.Some? && !IsPreRestore(opts.from.value.snapshot.value)
    requires Inv(f) && Alike(Reconciled(q, now), f, all) && id !in f.rows && !Lost(f, id) && !WorkAt(f, path).NotDir?
    ensures !Refused(f, id, opts)
  {
    hide HoldsWork, Merge, ValidEnvID, IsPreRestore, KeepsLost, Reconciled, Alike, HasSource, Stray, Cleared;
    LostIsStray(f, id);
    TouchesFrame(p, q, id, PathsOf(WorkspaceOf(opts)) + Named(p, id));
    RowsHaveDirs(p);
    RowsHaveDirs(f);
    hide Inv, Garbage;
    forall other | other in f.rows ensures f.rows[other].workspace != WorkspaceOf(opts) {
      AlikeWorkspace(q, f, other, now, all);
    }
    if opts.from.Some? {
      var ref := opts.from.value;
      GoldenThere(p, id, ref);
      GoldenThere(f, id, ref);
      AlikeSnap(q, f, ref.env, ref.snapshot.value, now, all);
    }
  }

  /** A golden snapshot is there for a create if it has a row and is on disk. */
  lemma GoldenThere(p: Pool, id: string, ref: SnapshotRef)
    requires id !in p.rows && ref.snapshot.Some? && forall i | i in p.rows :: i in p.dirs && p.dirs[i].snaps.Some?
    ensures HasSource(Cleared(p, id), ref) <==>
      && ref.env in p.rows && ref.snapshot.value in p.rows[ref.env].snaps
      && ref.snapshot.value in p.dirs[ref.env].snaps.value && p.dirs[ref.env].snaps.value[ref.snapshot.value].Subvol?
  {
    if ref.env in p.rows && ref.snapshot.value in p.dirs[ref.env].snaps.value {
      var at := p.dirs[ref.env].snaps.value[ref.snapshot.value];
      if at.Subvol? && ref.snapshot.value in p.rows[ref.env].snaps {
        assert IsSource(Cleared(p, id), ref, Subvol(at.tree));
      }
    }
  }
}
