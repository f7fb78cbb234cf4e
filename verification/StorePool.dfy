/** The pool of internal/store as a value: what is on disk and in the index,
    and what a completed Reconcile makes of it. */
module StorePool {
  import opened Names
  import opened Options
  import opened Trees

  /** What stands at a path where a subvolume may be. */
  datatype Place = Missing | NotDir | Plain(tree: Tree) | Subvol(tree: Tree)

  /** An environment's workspace: envs/<id>/live, or a worktree. */
  datatype Workspace = Own | At(path: string)

  /** The file envs/<id>/incomplete; a delete's names the workspace. */
  datatype Marker = Unmarked | Marked(names: Option<Workspace>)

  /** The directory envs/<id>. */
  datatype EnvDir = EnvDir(
    marker: Marker,
    live: Place,
    liveNew: Place,
    adoptNew: Place,
    snaps: Option<map<string, Place>>,
    claude: Option<Tree>,
    sources: Option<seq<Path>>)

  const NEW_DIR := EnvDir(Unmarked, Missing, Missing, Missing, None, None, None)

  /** A row of environments with its rows of snapshots, by ID with their time:
      the foreign key drops them with it. */
  datatype Row = Row(workspace: Workspace, git: string, snaps: map<string, int>)

  datatype Pool = Pool(dirs: map<string, EnvDir>, work: map<string, Place>, rows: map<string, Row>)

  // ------------------------------------------------------- reading the pool

  function WorkAt(p: Pool, path: string): Place {
    if path in p.work then p.work[path] else Missing
  }

  /** What stands at workspace w of environment id. */
  function PlaceOf(p: Pool, id: string, w: Workspace): Place
    requires id in p.dirs
  {
    match w
    case Own => p.dirs[id].live
    case At(path) => WorkAt(p, path)
  }

  /** holdsData. */
  predicate HoldsData(d: EnvDir) {
    || !d.live.Missing?
    || (d.snaps.Some? && d.snaps.value != map[])
    || (d.claude.Some? && d.claude.value != EMPTY)
  }

  /** The index has lost the environment: only a person may throw it away. */
  predicate Lost(p: Pool, id: string) {
    id in p.dirs && ValidEnvID(id) && id !in p.rows && p.dirs[id].marker.Unmarked? && HoldsData(p.dirs[id])
  }

  /** Left by an unfinished create or delete. */
  predicate Garbage(p: Pool, id: string) {
    id in p.dirs && ValidEnvID(id) && id !in p.rows && !Lost(p, id)
  }

  /** The snapshots on disk: subvolumes with a snapshot's name. */
  function OnDisk(snaps: map<string, Place>): set<string> {
    set n | n in snaps && ValidSnapID(n) && snaps[n].Subvol?
  }

  // ------------------------------------------------------- changing the pool

  function WithDir(p: Pool, id: string, d: EnvDir): Pool {
    p.(dirs := p.dirs[id := d])
  }

  function WithRow(p: Pool, id: string, row: Row): Pool {
    p.(rows := p.rows[id := row])
  }

  function WithWork(p: Pool, path: string, at: Place): Pool {
    p.(work := if at.Missing? then p.work - {path} else p.work[path := at])
  }

  function WithPlace(p: Pool, id: string, w: Workspace, at: Place): Pool
    requires id in p.dirs
  {
    match w
    case Own => WithDir(p, id, p.dirs[id].(live := at))
    case At(path) => WithWork(p, path, at)
  }

  /** Snapshot n of environment id without its subvolume. */
  function WithoutSubvol(p: Pool, id: string, n: string): Pool
    requires id in p.dirs && p.dirs[id].snaps.Some?
  {
    var snaps := p.dirs[id].snaps.value;
    if n in snaps && snaps[n].Subvol? then WithDir(p, id, p.dirs[id].(snaps := Some(snaps - {n}))) else p
  }

  /** Snapshot n of environment id without its row. */
  function WithoutSnapRow(p: Pool, id: string, n: string): Pool
    requires id in p.rows
  {
    WithRow(p, id, p.rows[id].(snaps := p.rows[id].snaps - {n}))
  }

  /** The pool without environment id: its row, its directory and its workspace. */
  function Deleted(p: Pool, id: string): Pool
    requires id in p.rows
  {
    p.(dirs := p.dirs - {id}, rows := p.rows - {id},
       work := map path | path in p.work && !(p.rows[id].workspace == At(path) && p.work[path].Subvol?) :: p.work[path])
  }

  lemma DirsBut(a: map<string, EnvDir>, b: map<string, EnvDir>, id: string)
    requires a - {id} == b - {id} && id in a
    ensures a == b[id := a[id]]
  {
    forall i | i != id ensures (i in a <==> i in b) && (i in a ==> a[i] == b[i]) {
      assert i in a <==> i in a - {id};
      assert i in b <==> i in b - {id};
    }
  }

  // -------------------------------------------------------------- invariants

  ghost predicate IndexedOk(d: EnvDir, row: Row) {
    && d.snaps.Some? && d.claude.Some?
    && (d.liveNew.Missing? || d.liveNew.Subvol?)
    && (row.workspace.Own? ==> d.live.Missing? || d.live.Subvol?)
    && (forall n | n in row.snaps :: ValidSnapID(n))
  }

  /** What every operation keeps, stopped or not. */
  ghost predicate Inv(p: Pool) {
    && (forall id | id in p.rows :: ValidEnvID(id) && id in p.dirs && IndexedOk(p.dirs[id], p.rows[id]))
    && (forall path | path in p.work :: !p.work[path].Missing?)
    && (forall a, b | a in p.rows && b in p.rows && p.rows[a].workspace.At? &&
          p.rows[a].workspace == p.rows[b].workspace :: a == b)
  }

  /** No environment is lost that wasn't, and what was is kept as it was. */
  ghost predicate KeepsLost(p: Pool, q: Pool) {
    && (forall id | Lost(p, id) || Lost(q, id) :: Lost(p, id) && Lost(q, id) && p.dirs[id] == q.dirs[id])
    && (forall id | !ValidEnvID(id) && (id in p.dirs || id in q.dirs) ::
          id in p.dirs && id in q.dirs && p.dirs[id] == q.dirs[id])
  }

  /** Only environment id's directory and row, and the worktrees in paths, differ. */
  ghost predicate OnlyTouches(p: Pool, q: Pool, id: string, paths: set<string>) {
    && q.dirs - {id} == p.dirs - {id}
    && q.rows - {id} == p.rows - {id}
    && q.work - paths == p.work - paths
  }

  ghost predicate OnlyDir(p: Pool, q: Pool, id: string) {
    q.dirs - {id} == p.dirs - {id} && q.rows == p.rows && q.work == p.work
  }

  /** Environment id's snapshot rows are its snapshots on disk. */
  ghost predicate Listed(p: Pool, id: string) {
    id in p.rows && id in p.dirs && p.dirs[id].snaps.Some? && p.rows[id].snaps.Keys == OnDisk(p.dirs[id].snaps.value)
  }

  // --------------------------------------------------- a completed Reconcile

  /** How long a pre-restore snapshot is kept, in seconds. */
  const PRE_RESTORE_KEEP := 24 * 60 * 60

  const PRE_RESTORE_PREFIX := "pre-restore-"

  function LowerCase(c: char): char {
    if 'A' <= c <= 'Z' then (c as int + 32) as char else c
  }

  /** SQLite's id LIKE 'pre-restore-%', which ignores the case of letters. */
  predicate IsPreRestore(id: string) {
    && |id| >= |PRE_RESTORE_PREFIX|
    && forall i | 0 <= i < |PRE_RESTORE_PREFIX| :: LowerCase(id[i]) == PRE_RESTORE_PREFIX[i]
  }

  /** SnapshotsBefore: the pre-restore rows taken over a day before now. */
  function Expired(snaps: map<string, int>, keep: string, now: int): set<string> {
    set n | n in snaps && IsPreRestore(n) && n != keep && snaps[n] < now - PRE_RESTORE_KEEP
  }

  lemma ExpiredLess(snaps: map<string, int>, n: string, keep: string, now: int)
    ensures Expired(snaps - {n}, keep, now) == Expired(snaps, keep, now) - {n}
  {
  }

  /** The rows reconcileSnapshots leaves: one for each snapshot on disk, with
      the time it had, or now. */
  function Found(snaps: map<string, Place>, rows: map<string, int>, now: int): map<string, int> {
    map n | n in OnDisk(snaps) :: if n in rows then rows[n] else now
  }

  function SettledDir(d: EnvDir, row: Row, now: int): EnvDir
    requires d.snaps.Some?
  {
    d.(marker := Unmarked,
       live := if row.workspace.Own? && d.live.Missing? then Subvol(EMPTY) else d.live,
       liveNew := if d.liveNew.Subvol? then Missing else d.liveNew,
       adoptNew := Missing,
       snaps := Some(d.snaps.value - Expired(Found(d.snaps.value, row.snaps, now), "", now)))
  }

  function SettledRow(d: EnvDir, row: Row, now: int): Row
    requires d.snaps.Some?
  {
    var found := Found(d.snaps.value, row.snaps, now);
    row.(snaps := found - Expired(found, "", now))
  }

  /** Some unindexed environment's delete had begun that names worktree path. */
  ghost predicate Doomed(p: Pool, path: string) {
    exists id :: Garbage(p, id) && p.dirs[id].marker == Marked(Some(At(path)))
  }

  ghost function DirAfter(p: Pool, id: string, now: int): Option<EnvDir>
    requires Inv(p)
  {
    if id !in p.dirs || Garbage(p, id) then None
    else if id in p.rows then Some(SettledDir(p.dirs[id], p.rows[id], now))
    else Some(p.dirs[id])
  }

  ghost function RowAfter(p: Pool, id: string, now: int): Option<Row>
    requires Inv(p)
  {
    if id in p.rows then Some(SettledRow(p.dirs[id], p.rows[id], now)) else None
  }

  ghost function WorkAfter(p: Pool, path: string): Place {
    if WorkAt(p, path).Subvol? && Doomed(p, path) then Missing else WorkAt(p, path)
  }

  /** The pool a completed Reconcile leaves. */
  ghost function Reconciled(p: Pool, now: int): Pool
    requires Inv(p)
  {
    Pool(
      map id | id in p.dirs && DirAfter(p, id, now).Some? :: DirAfter(p, id, now).value,
      map path | path in p.work && !WorkAfter(p, path).Missing? :: WorkAfter(p, path),
      map id | id in p.rows :: RowAfter(p, id, now).value)
  }

  /** What a Reconcile promises. */
  ghost predicate Clean(p: Pool) {
    forall id | id in p.rows ::
      && id in p.dirs
      && p.dirs[id].marker.Unmarked? && p.dirs[id].liveNew.Missing? && p.dirs[id].adoptNew.Missing?
      && Listed(p, id)
      && (p.rows[id].workspace.Own? ==> p.dirs[id].live.Subvol?)
  }

  // ------------------------------------------------------------------ lemmas

  lemma SettledOk(d: EnvDir, row: Row, now: int)
    requires IndexedOk(d, row)
    ensures IndexedOk(SettledDir(d, row, now), SettledRow(d, row, now))
    ensures OnDisk(SettledDir(d, row, now).snaps.value) == SettledRow(d, row, now).snaps.Keys
    ensures var e := SettledDir(d, row, now);
      && e.marker.Unmarked? && e.liveNew.Missing? && e.adoptNew.Missing? && (row.workspace.Own? ==> e.live.Subvol?)
    ensures SettledRow(d, row, now).workspace == row.workspace
  {
  }

  /** Settling a settled environment changes nothing. */
  lemma SettleTwice(d: EnvDir, row: Row, now: int)
    requires IndexedOk(d, row)
    ensures var d', row' := SettledDir(d, row, now), SettledRow(d, row, now);
      SettledDir(d', row', now) == d' && SettledRow(d', row', now) == row'
  {
    var d', row' := SettledDir(d, row, now), SettledRow(d, row, now);
    SettledOk(d, row, now);
    assert Found(d'.snaps.value, row'.snaps, now) == row'.snaps;
    assert Expired(row'.snaps, "", now) == {};
    assert d'.snaps.value - {} == d'.snaps.value;
  }

  lemma ReconciledIsClean(p: Pool, now: int)
    requires Inv(p)
    ensures Inv(Reconciled(p, now)) && Clean(Reconciled(p, now))
    ensures KeepsLost(p, Reconciled(p, now))
    ensures forall id :: !Garbage(Reconciled(p, now), id)
  {
    ReconciledLost(p, now);
    hide ValidEnvID, ValidSnapID, Garbage, KeepsLost, SettledRow, SettledDir, OnDisk;
    var q := Reconciled(p, now);
    forall id | id in q.rows
      ensures id in q.dirs && q.dirs[id] == SettledDir(p.dirs[id], p.rows[id], now)
      ensures q.rows[id] == SettledRow(p.dirs[id], p.rows[id], now)
      ensures q.rows[id].workspace == p.rows[id].workspace && IndexedOk(q.dirs[id], q.rows[id]) && Listed(q, id)
    {
      SettledOk(p.dirs[id], p.rows[id], now);
    }
    assert Clean(q) by {
      forall id | id in q.rows ensures q.dirs[id].marker.Unmarked? {
        SettledOk(p.dirs[id], p.rows[id], now);
      }
    }
    hide IndexedOk;
  }

  lemma ReconciledLost(p: Pool, now: int)
    requires Inv(p)
    ensures KeepsLost(p, Reconciled(p, now))
    ensures forall id :: !Garbage(Reconciled(p, now), id)
  {
    hide ValidEnvID, HoldsData, SettledDir, SettledRow, WorkAfter;
    var q := Reconciled(p, now);
    forall id | id in p.dirs && id !in p.rows ensures id in q.dirs <==> !Garbage(p, id) {
    }
  }

  /** Running Reconcile again at the same time changes nothing. */
  lemma ReconcileTwice(p: Pool, now: int)
    requires Inv(p)
    ensures Inv(Reconciled(p, now)) && Reconciled(Reconciled(p, now), now) == Reconciled(p, now)
  {
    hide ValidEnvID, ValidSnapID, IsPreRestore, SettledDir, SettledRow, Clean, KeepsLost;
    var q := Reconciled(p, now);
    ReconciledIsClean(p, now);
    var r := Reconciled(q, now);
    forall id | id in q.rows
      ensures SettledDir(q.dirs[id], q.rows[id], now) == q.dirs[id]
      ensures SettledRow(q.dirs[id], q.rows[id], now) == q.rows[id]
    {
      SettleTwice(p.dirs[id], p.rows[id], now);
    }
    assert forall path :: !Doomed(q, path);
    assert r.dirs == q.dirs;
    assert r.rows == q.rows;
    assert r.work == q.work;
  }

  /** A Reconcile takes away an indexed environment's worktree workspace if
      and only if the unfinished delete of another environment names it. */
  lemma WorkspaceKept(p: Pool, id: string, now: int)
    requires Inv(p) && id in p.rows && p.rows[id].workspace.At?
    ensures var path := p.rows[id].workspace.path;
      WorkAt(Reconciled(p, now), path) == WorkAt(p, path) <==> !(WorkAt(p, path).Subvol? && Doomed(p, path))
  {
  }

  // -------------------------------------- steps a later Reconcile looks past

  /** A Reconcile at time now, or whenever later, makes the same of both. */
  ghost predicate SameAfterReconcile(p: Pool, q: Pool, now: int) {
    Inv(p) && Inv(q) && forall t | t >= now :: Reconciled(p, t) == Reconciled(q, t)
  }

  lemma SameTrans(p: Pool, q: Pool, r: Pool, now: int)
    requires SameAfterReconcile(p, q, now) && SameAfterReconcile(q, r, now)
    ensures SameAfterReconcile(p, r, now)
  {
    hide Reconciled, Inv;
  }

  /** One step after another. */
  lemma Onwards(p: Pool, q: Pool, r: Pool, now: int)
    requires SameAfterReconcile(p, q, now) && SameAfterReconcile(q, r, now) && KeepsLost(p, q) && KeepsLost(q, r)
    ensures SameAfterReconcile(p, r, now) && KeepsLost(p, r) && Inv(r)
  {
    hide Reconciled, Inv, KeepsLost;
    SameTrans(p, q, r, now);
    KeepsLostTrans(p, q, r);
  }

  /** Two settled environments that differ at most in the times of snapshots,
      and, unless all is set, in pre-restore snapshots. */
  ghost predicate SnapsAlike(d: EnvDir, row: Row, e: EnvDir, other: Row, all: bool) {
    && d.snaps.Some? && e.snaps.Some?
    && d.(snaps := None) == e.(snaps := None) && row.(snaps := map[]) == other.(snaps := map[])
    && (forall n | all || !IsPreRestore(n) ::
          && (n in row.snaps <==> n in other.snaps)
          && (n in d.snaps.value <==> n in e.snaps.value)
          && (n in d.snaps.value ==> d.snaps.value[n] == e.snaps.value[n]))
  }

  /** Two reconciled pools that differ at most so. */
  ghost predicate Alike(p: Pool, q: Pool, all: bool) {
    && p.work == q.work && p.dirs.Keys == q.dirs.Keys && p.rows.Keys == q.rows.Keys
    && (forall id | id in p.dirs && id !in p.rows :: p.dirs[id] == q.dirs[id])
    && (forall id | id in p.rows :: id in p.dirs && SnapsAlike(p.dirs[id], p.rows[id], q.dirs[id], q.rows[id], all))
  }

  /** From p to q, a part of a Reconcile at time now. The rest of it still leaves
      what it would have left of p; and whenever later a Reconcile is made,
      it makes of both the same but for the times of snapshots found without a
      row, and over a day later for pre-restore snapshots found so. */
  ghost predicate Resumes(p: Pool, q: Pool, now: int) {
    && Inv(p) && Inv(q) && Reconciled(p, now) == Reconciled(q, now) && TimesKept(p, q, now)
    && forall t | t >= now :: Alike(Reconciled(p, t), Reconciled(q, t), t <= now + PRE_RESTORE_KEEP)
  }

  /** Snapshot n of environment id is on disk and has a row. */
  predicate Indexed(p: Pool, id: string, n: string) {
    && id in p.rows && n in p.rows[id].snaps
    && id in p.dirs && p.dirs[id].snaps.Some? && n in OnDisk(p.dirs[id].snaps.value)
  }

  /** Every snapshot with a row that a Reconcile at time now leaves still has it. */
  ghost predicate TimesKept(p: Pool, q: Pool, now: int)
    requires Inv(p)
  {
    forall id, n | Indexed(p, id, n) && n in Reconciled(p, now).rows[id].snaps ::
      Indexed(q, id, n) && q.rows[id].snaps[n] == p.rows[id].snaps[n]
  }

  lemma SameTimes(p: Pool, q: Pool, now: int)
    requires SameAfterReconcile(p, q, now)
    ensures TimesKept(p, q, now)
  {
    SameRows(p, q, now);
    assert forall id | id in q.rows :: id in q.dirs && q.dirs[id].snaps.Some?;
    assert p.rows.Keys == Reconciled(p, now).rows.Keys;
    hide Reconciled, IsPreRestore, Inv, OnDisk;
    assert Reconciled(p, now) == Reconciled(q, now) && Reconciled(p, now + 1) == Reconciled(q, now + 1);
    forall id, n | Indexed(p, id, n) && n in Reconciled(p, now).rows[id].snaps
      ensures Indexed(q, id, n) && q.rows[id].snaps[n] == p.rows[id].snaps[n]
    {
      assert id in q.rows && id in q.dirs && q.dirs[id].snaps.Some?;
      SnapshotKept(p, id, n, now);
      SnapshotKept(p, id, n, now + 1);
      SnapshotKept(q, id, n, now);
      SnapshotKept(q, id, n, now + 1);
    }
  }

  lemma SameRows(p: Pool, q: Pool, now: int)
    requires Inv(p) && Inv(q) && Reconciled(p, now) == Reconciled(q, now)
    ensures p.rows.Keys == q.rows.Keys
  {
    assert p.rows.Keys == Reconciled(p, now).rows.Keys;
    assert q.rows.Keys == Reconciled(q, now).rows.Keys;
  }

  lemma AlikeRefl(p: Pool, all: bool)
    requires forall id | id in p.rows :: id in p.dirs && p.dirs[id].snaps.Some?
    ensures Alike(p, p, all)
  {
  }

  lemma AlikeTrans(p: Pool, q: Pool, r: Pool, all: bool, other: bool)
    requires Alike(p, q, all) && Alike(q, r, other)
    ensures Alike(p, r, all && other)
  {
    hide IsPreRestore;
  }

  lemma AlikeWorkspace(q: Pool, f: Pool, e: string, now: int, all: bool)
    requires Inv(q) && Alike(Reconciled(q, now), f, all) && e in f.rows
    ensures e in q.rows && f.rows[e].workspace == q.rows[e].workspace
  {
    hide IsPreRestore, ValidEnvID, IndexedOk, Garbage, Doomed;
    var a := Reconciled(q, now);
    assert SnapsAlike(a.dirs[e], a.rows[e], f.dirs[e], f.rows[e], all);
    assert f.rows[e].workspace == f.rows[e].(snaps := map[]).workspace == a.rows[e].(snaps := map[]).workspace;
  }

  lemma AlikeSnap(q: Pool, f: Pool, e: string, n: string, now: int, all: bool)
    requires Inv(q) && Alike(Reconciled(q, now), f, all) && e in q.rows && !IsPreRestore(n)
    requires n in q.rows[e].snaps && n in q.dirs[e].snaps.value && q.dirs[e].snaps.value[n].Subvol?
    ensures e in f.rows && e in f.dirs && f.dirs[e].snaps.Some?
    ensures n in f.rows[e].snaps && n in f.dirs[e].snaps.value && f.dirs[e].snaps.value[n] == q.dirs[e].snaps.value[n]
  {
    hide IsPreRestore, ValidEnvID, Garbage, Doomed;
    var a := Reconciled(q, now);
    assert a.dirs[e] == SettledDir(q.dirs[e], q.rows[e], now) && a.rows[e] == SettledRow(q.dirs[e], q.rows[e], now);
    SettledKeeps(q.dirs[e], q.rows[e], n, now);
    hide SettledDir, SettledRow;
    assert SnapsAlike(a.dirs[e], a.rows[e], f.dirs[e], f.rows[e], all);
  }

  lemma ResumesTrans(p: Pool, q: Pool, r: Pool, now: int)
    requires Resumes(p, q, now) && Resumes(q, r, now)
    ensures Resumes(p, r, now) && Inv(r)
  {
    hide Reconciled, Alike, Inv;
    assert TimesKept(p, r, now);
    hide TimesKept;
    forall t | t >= now ensures Alike(Reconciled(p, t), Reconciled(r, t), t <= now + PRE_RESTORE_KEEP) {
      var all := t <= now + PRE_RESTORE_KEEP;
      AlikeTrans(Reconciled(p, t), Reconciled(q, t), Reconciled(r, t), all, all);
    }
  }

  lemma SameResumes(p: Pool, q: Pool, now: int)
    requires SameAfterReconcile(p, q, now)
    ensures Resumes(p, q, now) && Inv(q)
  {
    hide Reconciled, Alike, Clean, KeepsLost, TimesKept;
    SameTimes(p, q, now);
    forall t | t >= now ensures Alike(Reconciled(p, t), Reconciled(q, t), t <= now + PRE_RESTORE_KEEP) {
      ReconciledIsClean(p, t);
      AlikeRefl(Reconciled(p, t), t <= now + PRE_RESTORE_KEEP);
    }
  }

  lemma ResumesRefl(p: Pool, now: int)
    requires Inv(p)
    ensures Resumes(p, p, now)
  {
    hide Reconciled, Resumes;
    SameResumes(p, p, now);
  }

  lemma FoundAlike(d: EnvDir, row: Row, now: int, t: int)
    requires IndexedOk(d, row) && t >= now
    ensures var later := row.(snaps := Found(d.snaps.value, row.snaps, now));
      SnapsAlike(SettledDir(d, row, t), SettledRow(d, row, t), SettledDir(d, later, t), SettledRow(d, later, t),
        t <= now + PRE_RESTORE_KEEP)
  {
    hide IsPreRestore, ValidSnapID;
  }

  lemma FoundAlikeAt(p: Pool, id: string, now: int, t: int)
    requires Inv(p) && id in p.rows && t >= now
    ensures var q := WithRow(p, id, p.rows[id].(snaps := Found(p.dirs[id].snaps.value, p.rows[id].snaps, now)));
      Inv(q) && Alike(Reconciled(p, t), Reconciled(q, t), t <= now + PRE_RESTORE_KEEP)
  {
    hide SnapsAlike, SettledDir, SettledRow, IsPreRestore, Found, OnDisk, Reconciled, Alike;
    var row := p.rows[id].(snaps := Found(p.dirs[id].snaps.value, p.rows[id].snaps, now));
    FoundOk(p.dirs[id], p.rows[id], now);
    IndexedStep(p, id, p.dirs[id], row);
    assert p.dirs[id := p.dirs[id]] == p.dirs;
    FoundAlike(p.dirs[id], p.rows[id], now, t);
    RowAlike(p, id, row, t, t <= now + PRE_RESTORE_KEEP);
  }

  /** A change to an environment's snapshot rows alone. */
  lemma RowAlike(p: Pool, id: string, row: Row, t: int, all: bool)
    requires Inv(p) && id in p.rows && Inv(WithRow(p, id, row))
    requires SnapsAlike(SettledDir(p.dirs[id], p.rows[id], t), SettledRow(p.dirs[id], p.rows[id], t),
      SettledDir(p.dirs[id], row, t), SettledRow(p.dirs[id], row, t), all)
    requires forall path :: Doomed(WithRow(p, id, row), path) <==> Doomed(p, path)
    ensures Alike(Reconciled(p, t), Reconciled(WithRow(p, id, row), t), all)
  {
    hide SnapsAlike, SettledDir, SettledRow, Doomed, HoldsData, ValidEnvID, Reconciled, Alike, IndexedOk;
    var q := WithRow(p, id, row);
    forall i | i in p.rows ensures AlikeAt(p, q, i, t, all) {
      if i != id {
        SettledAlike(p.dirs[i], p.rows[i], t, all);
      }
    }
    AlikePointwise(p, q, t, all);
  }

  ghost predicate AlikeAt(p: Pool, q: Pool, i: string, t: int, all: bool)
    requires Inv(p) && Inv(q) && i in p.rows && i in q.rows
  {
    SnapsAlike(SettledDir(p.dirs[i], p.rows[i], t), SettledRow(p.dirs[i], p.rows[i], t),
      SettledDir(q.dirs[i], q.rows[i], t), SettledRow(q.dirs[i], q.rows[i], t), all)
  }

  lemma RowsStay(p: Pool, t: int)
    requires Inv(p)
    ensures forall i | i in p.rows :: i in Reconciled(p, t).dirs && !Garbage(p, i)
  {
    hide SettledDir, SettledRow, Doomed, Lost, ValidEnvID, IndexedOk;
  }

  lemma AlikePointwise(p: Pool, q: Pool, t: int, all: bool)
    requires Inv(p) && Inv(q) && p.rows.Keys == q.rows.Keys
    requires forall path :: WorkAfter(p, path) == WorkAfter(q, path)
    requires forall i | i !in p.rows :: DirAfter(p, i, t) == DirAfter(q, i, t)
    requires forall i | i in p.rows :: AlikeAt(p, q, i, t, all)
    ensures Alike(Reconciled(p, t), Reconciled(q, t), all)
  {
    hide SnapsAlike, SettledDir, SettledRow, Doomed, Garbage, ValidEnvID, IndexedOk;
    var a, b := Reconciled(p, t), Reconciled(q, t);
    assert a.work == b.work by {
      forall path ensures path in a.work <==> path in b.work {
        assert WorkAfter(p, path) == WorkAfter(q, path);
      }
    }
    RowsStay(p, t);
    RowsStay(q, t);
    forall i ensures i in a.dirs <==> i in b.dirs {
      assert i !in p.rows ==> DirAfter(p, i, t) == DirAfter(q, i, t);
    }
    forall i | i in a.rows ensures SnapsAlike(a.dirs[i], a.rows[i], b.dirs[i], b.rows[i], all) {
      assert AlikeAt(p, q, i, t, all);
    }
  }

  lemma FoundOk(d: EnvDir, row: Row, now: int)
    requires IndexedOk(d, row)
    ensures IndexedOk(d, row.(snaps := Found(d.snaps.value, row.snaps, now)))
  {
  }

  lemma SettledAlike(d: EnvDir, row: Row, t: int, all: bool)
    requires IndexedOk(d, row)
    ensures SnapsAlike(SettledDir(d, row, t), SettledRow(d, row, t), SettledDir(d, row, t), SettledRow(d, row, t), all)
  {
  }

  lemma Pointwise(p: Pool, q: Pool, now: int)
    requires Inv(p) && Inv(q)
    requires forall id :: DirAfter(p, id, now) == DirAfter(q, id, now)
    requires forall id :: RowAfter(p, id, now) == RowAfter(q, id, now)
    requires forall path :: WorkAfter(p, path) == WorkAfter(q, path)
    ensures Reconciled(p, now) == Reconciled(q, now)
  {
    hide SettledDir, SettledRow, Garbage, Doomed, IndexedOk;
    var a, b := Reconciled(p, now), Reconciled(q, now);
    forall id ensures id in a.dirs <==> id in b.dirs {
      assert DirAfter(p, id, now) == DirAfter(q, id, now);
    }
    forall id ensures id in a.rows <==> id in b.rows {
      assert RowAfter(p, id, now) == RowAfter(q, id, now);
    }
    forall path ensures path in a.work <==> path in b.work {
      assert WorkAfter(p, path) == WorkAfter(q, path);
    }
    assert a.dirs == b.dirs;
    assert a.rows == b.rows;
    assert a.work == b.work;
  }

  lemma SameGarbageSameDoom(p: Pool, q: Pool)
    requires forall i :: Garbage(q, i) <==> Garbage(p, i)
    requires forall i | Garbage(p, i) && Garbage(q, i) :: p.dirs[i].marker == q.dirs[i].marker
    ensures forall path :: Doomed(q, path) <==> Doomed(p, path)
  {
    forall path | Doomed(p, path) ensures Doomed(q, path) {
      var i :| Garbage(p, i) && p.dirs[i].marker == Marked(Some(At(path)));
      assert Garbage(q, i);
    }
  }

  lemma IndexedInv(p: Pool, id: string, d: EnvDir, row: Row)
    requires Inv(p) && id in p.rows && IndexedOk(d, row) && row.workspace == p.rows[id].workspace
    ensures Inv(WithRow(WithDir(p, id, d), id, row))
  {
    hide ValidEnvID, IndexedOk;
  }

  lemma IndexedLost(p: Pool, id: string, d: EnvDir, row: Row)
    requires Inv(p) && id in p.rows
    ensures var q := WithRow(WithDir(p, id, d), id, row);
      && KeepsLost(p, q) && (forall i :: Garbage(q, i) <==> Garbage(p, i))
      && (forall i | Garbage(p, i) && Garbage(q, i) :: p.dirs[i].marker == q.dirs[i].marker)
  {
    hide ValidEnvID, HoldsData, IndexedOk;
  }

  lemma IndexedStep(p: Pool, id: string, d: EnvDir, row: Row)
    requires Inv(p) && id in p.rows && IndexedOk(d, row) && row.workspace == p.rows[id].workspace
    ensures var q := WithRow(WithDir(p, id, d), id, row);
      Inv(q) && KeepsLost(p, q) && forall path :: Doomed(q, path) <==> Doomed(p, path)
  {
    hide ValidEnvID, IndexedOk, KeepsLost, Lost, Doomed;
    var q := WithRow(WithDir(p, id, d), id, row);
    IndexedInv(p, id, d, row);
    IndexedLost(p, id, d, row);
    SameGarbageSameDoom(p, q);
  }

  /** Settling makes the same of both at time t. */
  ghost predicate SettleSame(d: EnvDir, row: Row, e: EnvDir, other: Row, t: int) {
    && IndexedOk(d, row) && IndexedOk(e, other)
    && SettledDir(d, row, t) == SettledDir(e, other, t) && SettledRow(d, row, t) == SettledRow(e, other, t)
  }

  /** A step within an indexed environment that settling at that time undoes or
      finishes. */
  lemma SettleStepNow(p: Pool, id: string, d: EnvDir, row: Row, now: int)
    requires Inv(p) && id in p.rows && SettleSame(d, row, p.dirs[id], p.rows[id], now)
    ensures var q := WithRow(WithDir(p, id, d), id, row);
      Inv(q) && Reconciled(p, now) == Reconciled(q, now) && KeepsLost(p, q)
  {
    hide SettledDir, KeepsLost, IsPreRestore, Lost;
    var q := WithRow(WithDir(p, id, d), id, row);
    assert row.workspace == SettledRow(d, row, now).workspace;
    IndexedStep(p, id, d, row);
    forall i ensures DirAfter(p, i, now) == DirAfter(q, i, now) && RowAfter(p, i, now) == RowAfter(q, i, now) {
      SettleStepAt(p, id, d, row, now, i);
    }
    forall path ensures WorkAfter(p, path) == WorkAfter(q, path) {
    }
    Pointwise(p, q, now);
  }

  /** A step within an indexed environment that settling undoes or finishes
      from then on. */
  lemma SettleStep(p: Pool, id: string, d: EnvDir, row: Row, now: int)
    requires Inv(p) && id in p.rows && forall t | t >= now :: SettleSame(d, row, p.dirs[id], p.rows[id], t)
    ensures var q := WithRow(WithDir(p, id, d), id, row);
      SameAfterReconcile(p, q, now) && KeepsLost(p, q)
  {
    hide Reconciled, KeepsLost, SettleSame;
    var q := WithRow(WithDir(p, id, d), id, row);
    assert SettleSame(d, row, p.dirs[id], p.rows[id], now);
    SettleStepNow(p, id, d, row, now);
    forall t | t >= now ensures Reconciled(p, t) == Reconciled(q, t) {
      assert SettleSame(d, row, p.dirs[id], p.rows[id], t);
      SettleStepNow(p, id, d, row, t);
    }
  }

  lemma SettleStepAt(p: Pool, id: string, d: EnvDir, row: Row, now: int, i: string)
    requires Inv(p) && id in p.rows && SettleSame(d, row, p.dirs[id], p.rows[id], now)
    requires Inv(WithRow(WithDir(p, id, d), id, row))
    ensures var q := WithRow(WithDir(p, id, d), id, row);
      DirAfter(p, i, now) == DirAfter(q, i, now) && RowAfter(p, i, now) == RowAfter(q, i, now)
  {
  }

  /** A step within what a create or delete left. */
  lemma GarbageStep(p: Pool, id: string, d: EnvDir, now: int)
    requires Inv(p) && Garbage(p, id) && d.marker == p.dirs[id].marker && Garbage(WithDir(p, id, d), id)
    ensures SameAfterReconcile(p, WithDir(p, id, d), now) && KeepsLost(p, WithDir(p, id, d))
  {
    var q := WithDir(p, id, d);
    assert forall i :: Garbage(q, i) <==> Garbage(p, i);
    SameGarbageSameDoom(p, q);
    forall t | t >= now ensures Reconciled(p, t) == Reconciled(q, t) {
      Pointwise(p, q, t);
    }
  }

  /** Removing the workspace an unfinished delete names. */
  lemma GarbageWork(p: Pool, id: string, path: string, now: int)
    requires Inv(p) && Garbage(p, id) && p.dirs[id].marker == Marked(Some(At(path))) && WorkAt(p, path).Subvol?
    ensures SameAfterReconcile(p, WithWork(p, path, Missing), now) && KeepsLost(p, WithWork(p, path, Missing))
  {
    var q := WithWork(p, path, Missing);
    assert forall i :: Garbage(q, i) <==> Garbage(p, i);
    SameGarbageSameDoom(p, q);
    assert Doomed(p, path);
    forall t | t >= now ensures Reconciled(p, t) == Reconciled(q, t) {
      Pointwise(p, q, t);
    }
  }

  /** The last step: the directory, once the workspace it names is no subvolume. */
  lemma GarbageGone(p: Pool, id: string, now: int)
    requires Inv(p) && Garbage(p, id)
    requires forall path | p.dirs[id].marker == Marked(Some(At(path))) :: !WorkAt(p, path).Subvol?
    ensures SameAfterReconcile(p, p.(dirs := p.dirs - {id}), now) && KeepsLost(p, p.(dirs := p.dirs - {id}))
  {
    var q := p.(dirs := p.dirs - {id});
    assert forall i :: Garbage(q, i) <==> Garbage(p, i) && i != id;
    forall w | WorkAt(p, w).Subvol? ensures Doomed(q, w) <==> Doomed(p, w) {
      if Doomed(p, w) {
        var i :| Garbage(p, i) && p.dirs[i].marker == Marked(Some(At(w)));
        assert Garbage(q, i);
      }
    }
    forall t | t >= now ensures Reconciled(p, t) == Reconciled(q, t) {
      Pointwise(p, q, t);
    }
  }

  /** A Reconcile at time now has nothing to do in the environment. */
  ghost predicate IsSettled(d: EnvDir, row: Row, now: int) {
    IndexedOk(d, row) && SettledDir(d, row, now) == d && SettledRow(d, row, now) == row
  }

  /** Nothing is left to reconcile. */
  lemma Fixpoint(p: Pool, now: int)
    requires Inv(p)
    requires forall id :: !Garbage(p, id)
    requires forall id | id in p.rows :: IsSettled(p.dirs[id], p.rows[id], now)
    ensures Reconciled(p, now) == p
  {
    var q := Reconciled(p, now);
    assert q.dirs == p.dirs;
    assert q.rows == p.rows;
    assert q.work == p.work;
  }

  /** Deleting a pre-restore snapshot that is old enough, in two steps. */
  lemma ExpireStep(p: Pool, id: string, n: string, now: int)
    requires Inv(p) && id in p.rows && n in p.rows[id].snaps
    requires IsPreRestore(n) && p.rows[id].snaps[n] < now - PRE_RESTORE_KEEP
    ensures SameAfterReconcile(p, WithoutSubvol(p, id, n), now)
    ensures SameAfterReconcile(p, WithoutSnapRow(WithoutSubvol(p, id, n), id, n), now)
    ensures KeepsLost(p, WithoutSubvol(p, id, n)) && KeepsLost(p, WithoutSnapRow(WithoutSubvol(p, id, n), id, n))
  {
    hide Reconciled, SettledDir, SettledRow, KeepsLost, IsPreRestore, ValidEnvID, ValidSnapID;
    var d, row := p.dirs[id], p.rows[id];
    var d' := WithoutSubvol(p, id, n).dirs[id];
    var row' := row.(snaps := row.snaps - {n});
    forall t | t >= now ensures SettleSame(d', row, d, row, t) && SettleSame(d', row', d, row, t) {
      ExpireSettles(d, d', row, row, n, t);
      ExpireSettles(d, d', row, row', n, t);
    }
    hide SettleSame;
    SettleStep(p, id, d', row, now);
    assert WithRow(WithDir(p, id, d'), id, row) == WithoutSubvol(p, id, n) by {
      assert p.rows[id := row] == p.rows;
      assert p.dirs[id := d] == p.dirs;
    }
    SettleStep(p, id, d', row', now);
    assert WithRow(WithDir(p, id, d'), id, row') == WithoutSnapRow(WithoutSubvol(p, id, n), id, n) by {
      assert p.dirs[id := d] == p.dirs;
    }
  }

  lemma ExpireSettles(d: EnvDir, d': EnvDir, row: Row, row': Row, n: string, now: int)
    requires IndexedOk(d, row) && n in row.snaps && IsPreRestore(n) && row.snaps[n] < now - PRE_RESTORE_KEEP
    requires d' == if n in d.snaps.value && d.snaps.value[n].Subvol? then d.(snaps := Some(d.snaps.value - {n})) else d
    requires row' == row || row' == row.(snaps := row.snaps - {n})
    ensures IndexedOk(d', row')
    ensures SettledDir(d', row', now) == SettledDir(d, row, now)
    ensures SettledRow(d', row', now) == SettledRow(d, row, now)
  {
    var f, f' := Found(d.snaps.value, row.snaps, now), Found(d'.snaps.value, row'.snaps, now);
    assert f' == f - {n};
    assert Expired(f', "", now) == Expired(f, "", now) - {n};
    assert f' - Expired(f', "", now) == f - Expired(f, "", now);
    assert d'.snaps.value - Expired(f', "", now) == d.snaps.value - Expired(f, "", now);
  }

  /** The step that decides a delete: with its row gone, a marked environment
      is as good as deleted. */
  lemma UnindexStep(p: Pool, id: string, now: int)
    requires Inv(p) && id in p.rows && p.dirs[id].marker == Marked(Some(p.rows[id].workspace))
    ensures var q := p.(rows := p.rows - {id});
      Garbage(q, id) && SameAfterReconcile(Deleted(p, id), q, now) && KeepsLost(p, q)
  {
    var q, gone := p.(rows := p.rows - {id}), Deleted(p, id);
    assert Inv(q);
    assert forall i :: Garbage(q, i) <==> Garbage(gone, i) || i == id;
    forall path ensures WorkAfter(gone, path) == WorkAfter(q, path) {
      assert Doomed(q, path) <==> Doomed(gone, path) || p.rows[id].workspace == At(path) by {
        if p.rows[id].workspace == At(path) {
          assert Garbage(q, id);
        }
      }
    }
    forall t | t >= now ensures Reconciled(gone, t) == Reconciled(q, t) {
      Pointwise(gone, q, t);
    }
  }

  lemma KeepsLostRefl(p: Pool)
    ensures KeepsLost(p, p)
  {
  }

  lemma KeepsLostTrans(p: Pool, q: Pool, r: Pool)
    requires KeepsLost(p, q) && KeepsLost(q, r)
    ensures KeepsLost(p, r)
  {
  }

  /** From p to q, only expired pre-restore snapshots of environment id went. */
  ghost predicate Pruned(p: Pool, q: Pool, id: string, keep: string, now: int) {
    && id in p.rows && id in p.dirs && p.dirs[id].snaps.Some?
    && id in q.rows && id in q.dirs && q.dirs[id].snaps.Some?
    && q.dirs - {id} == p.dirs - {id} && q.dirs[id] == p.dirs[id].(snaps := q.dirs[id].snaps)
    && q.rows - {id} == p.rows - {id} && q.rows[id] == p.rows[id].(snaps := q.rows[id].snaps)
    && q.work == p.work
    && (forall n | n in q.rows[id].snaps :: n in p.rows[id].snaps && q.rows[id].snaps[n] == p.rows[id].snaps[n])
    && (forall n | n in q.dirs[id].snaps.value ::
          n in p.dirs[id].snaps.value && q.dirs[id].snaps.value[n] == p.dirs[id].snaps.value[n])
    && (forall n | n in p.rows[id].snaps && n !in Expired(p.rows[id].snaps, keep, now) :: n in q.rows[id].snaps)
    && (forall n | n in p.dirs[id].snaps.value && n !in Expired(p.rows[id].snaps, keep, now) ::
          n in q.dirs[id].snaps.value)
  }

  lemma ListedLess(p: Pool, id: string, n: string)
    requires Listed(p, id)
    ensures Listed(WithoutSnapRow(WithoutSubvol(p, id, n), id, n), id)
  {
    hide ValidSnapID;
    var snaps := p.dirs[id].snaps.value;
    assert OnDisk(snaps - {n}) == OnDisk(snaps) - {n};
  }

  lemma PrunedNothing(p: Pool, id: string, keep: string, now: int)
    requires Inv(p) && id in p.rows
    ensures Pruned(p, p, id, keep, now)
  {
  }

  lemma PrunedMore(p: Pool, q: Pool, id: string, n: string, keep: string, now: int)
    requires Pruned(p, q, id, keep, now) && n in Expired(q.rows[id].snaps, keep, now)
    ensures Pruned(p, WithoutSubvol(q, id, n), id, keep, now)
    ensures Pruned(p, WithoutSnapRow(WithoutSubvol(q, id, n), id, n), id, keep, now)
  {
    hide IsPreRestore;
    assert n in Expired(p.rows[id].snaps, keep, now);
  }

  /** From d to e, only what settling undoes or finishes whenever it is done:
      the marker, adopt.new, a subvolume live.new, a live/ that isn't there. */
  predicate Unsettled(d: EnvDir, e: EnvDir, row: Row) {
    && e == d.(marker := e.marker, adoptNew := e.adoptNew, liveNew := e.liveNew, live := e.live)
    && (e.liveNew == d.liveNew || (d.liveNew.Subvol? && e.liveNew.Missing?))
    && (e.live == d.live || (row.workspace.Own? && d.live.Missing? && e.live == Subvol(EMPTY)))
  }

  /** A change within an indexed environment's directory that settling undoes. */
  lemma SettleDirStep(p: Pool, id: string, e: EnvDir, now: int)
    requires Inv(p) && id in p.rows && Unsettled(p.dirs[id], e, p.rows[id])
    ensures SameAfterReconcile(p, WithDir(p, id, e), now) && KeepsLost(p, WithDir(p, id, e))
  {
    hide Reconciled, KeepsLost, IsPreRestore, ValidSnapID;
    forall t | t >= now ensures SettleSame(e, p.rows[id], p.dirs[id], p.rows[id], t) {
    }
    hide SettleSame;
    SettleStep(p, id, e, p.rows[id], now);
    assert p.rows[id := p.rows[id]] == p.rows;
  }

  lemma FoundSettles(d: EnvDir, row: Row, now: int)
    requires IndexedOk(d, row)
    ensures var row' := row.(snaps := Found(d.snaps.value, row.snaps, now));
      IndexedOk(d, row') && SettledDir(d, row', now) == SettledDir(d, row, now) &&
        SettledRow(d, row', now) == SettledRow(d, row, now)
  {
    hide ValidSnapID, IsPreRestore;
    var found := Found(d.snaps.value, row.snaps, now);
    assert Found(d.snaps.value, found, now) == found;
  }

  /** The one transaction after which the snapshot rows are those on disk. */
  lemma FoundStep(p: Pool, id: string, now: int)
    requires Inv(p) && id in p.rows
    ensures var q := WithRow(p, id, p.rows[id].(snaps := Found(p.dirs[id].snaps.value, p.rows[id].snaps, now)));
      Resumes(p, q, now) && KeepsLost(p, q) && Listed(q, id)
  {
    hide Reconciled, KeepsLost, SettledDir, SettledRow, ValidSnapID, Alike, TimesKept;
    var row := p.rows[id].(snaps := Found(p.dirs[id].snaps.value, p.rows[id].snaps, now));
    FoundTimes(p, id, now);
    FoundSettles(p.dirs[id], p.rows[id], now);
    SettleStepNow(p, id, p.dirs[id], row, now);
    assert p.dirs[id := p.dirs[id]] == p.dirs;
    forall t | t >= now
      ensures Alike(Reconciled(p, t), Reconciled(WithRow(p, id, row), t), t <= now + PRE_RESTORE_KEEP)
    {
      FoundAlikeAt(p, id, now, t);
    }
  }

  lemma FoundTimes(p: Pool, id: string, now: int)
    requires Inv(p) && id in p.rows
    ensures var row := p.rows[id].(snaps := Found(p.dirs[id].snaps.value, p.rows[id].snaps, now));
      TimesKept(p, WithRow(p, id, row), now)
  {
    hide Reconciled, OnDisk, IsPreRestore;
  }

  /** From p to q, only leftovers of a restore, adopt, create or delete went. */
  ghost predicate Tidies(p: Pool, q: Pool, id: string, now: int) {
    && SameAfterReconcile(p, q, now) && KeepsLost(p, q) && OnlyDir(p, q, id) && id in q.dirs
  }

  lemma TidiesNothing(p: Pool, id: string, now: int)
    requires Inv(p) && id in p.rows
    ensures Tidies(p, p, id, now)
  {
  }

  /** After the prune, the environment is settled. */
  lemma PrunedIsSettled(p: Pool, q: Pool, id: string, now: int)
    requires Inv(p) && Inv(q) && Pruned(p, q, id, "", now)
    requires Listed(q, id)
    requires Expired(q.rows[id].snaps, "", now) == {}
    requires p.dirs[id].marker.Unmarked? && p.dirs[id].liveNew.Missing? && p.dirs[id].adoptNew.Missing?
    requires p.rows[id].workspace.Own? ==> p.dirs[id].live.Subvol?
    ensures IsSettled(q.dirs[id], q.rows[id], now)
  {
    var d, row := q.dirs[id], q.rows[id];
    assert Found(d.snaps.value, row.snaps, now) == row.snaps;
    assert d.snaps.value - {} == d.snaps.value;
    assert row.snaps - {} == row.snaps;
  }

  lemma LostStays(p: Pool, q: Pool, id: string)
    requires KeepsLost(p, q)
    ensures Lost(p, id) <==> Lost(q, id)
    ensures !ValidEnvID(id) ==> (id in p.dirs <==> id in q.dirs)
  {
  }

  lemma AllReconciled(p: Pool, q: Pool, now: int)
    requires Resumes(p, q, now)
    requires forall id | id in q.dirs :: !Garbage(q, id)
    requires forall id | id in q.rows :: id in q.dirs && IsSettled(q.dirs[id], q.rows[id], now)
    ensures q == Reconciled(p, now)
  {
    Fixpoint(q, now);
  }

  lemma TouchesFrame(p: Pool, q: Pool, id: string, paths: set<string>)
    requires OnlyTouches(p, q, id, paths)
    ensures forall i | i != id :: (i in q.dirs <==> i in p.dirs) && (i in p.dirs ==> q.dirs[i] == p.dirs[i])
    ensures forall i | i != id :: (i in q.rows <==> i in p.rows) && (i in p.rows ==> q.rows[i] == p.rows[i])
    ensures forall i | i != id :: Garbage(q, i) <==> Garbage(p, i)
  {
    forall i | i != id
      ensures (i in q.dirs <==> i in p.dirs) && (i in p.dirs ==> q.dirs[i] == p.dirs[i])
      ensures (i in q.rows <==> i in p.rows) && (i in p.rows ==> q.rows[i] == p.rows[i])
    {
      assert i in q.dirs <==> i in q.dirs - {id};
      assert i in p.dirs <==> i in p.dirs - {id};
      assert i in q.rows <==> i in q.rows - {id};
      assert i in p.rows <==> i in p.rows - {id};
    }
  }

  lemma TouchesEnv(p: Pool, q: Pool, id: string, d: EnvDir, row: Row)
    ensures forall paths | OnlyTouches(p, q, id, paths) ::
      OnlyTouches(p, WithDir(q, id, d), id, paths) && OnlyTouches(p, WithRow(q, id, row), id, paths)
  {
    assert (q.dirs[id := d]) - {id} == q.dirs - {id};
    assert (q.rows[id := row]) - {id} == q.rows - {id};
  }

  // ---------------------------------------------- steps within an environment

  /** Environment id has a row, or is marked as being made or deleted: changes
      in its directory can lose nothing. */
  ghost predicate Covered(p: Pool, id: string) {
    id in p.dirs && (id in p.rows || p.dirs[id].marker.Marked?)
  }

  /** A step within environment id's directory. */
  lemma DirStep(p: Pool, id: string, d: EnvDir)
    requires Inv(p) && ValidEnvID(id) && !Lost(p, id)
    requires id in p.rows ==> IndexedOk(d, p.rows[id])
    requires id in p.rows || d.marker.Marked? || !HoldsData(d)
    ensures Inv(WithDir(p, id, d)) && KeepsLost(p, WithDir(p, id, d))
  {
  }

  /** A step at a worktree's path. */
  lemma WorkStep(p: Pool, path: string, at: Place)
    requires Inv(p)
    ensures Inv(WithWork(p, path, at)) && KeepsLost(p, WithWork(p, path, at))
  {
  }

  /** A step at workspace w of environment id. */
  lemma PlaceStep(p: Pool, id: string, w: Workspace, at: Place)
    requires Inv(p) && ValidEnvID(id) && Covered(p, id)
    requires id in p.rows && w.Own? && p.rows[id].workspace.Own? ==> at.Missing? || at.Subvol?
    ensures Inv(WithPlace(p, id, w, at)) && KeepsLost(p, WithPlace(p, id, w, at))
  {
    match w
    case Own => DirStep(p, id, p.dirs[id].(live := at));
    case At(path) => WorkStep(p, path, at);
  }

  /** The paths a workspace is at, outside the environment's directory. */
  function PathsOf(w: Workspace): set<string> {
    match w
    case Own => {}
    case At(path) => {path}
  }

  /** The environment's own snapshot steps. */
  function Taken(p: Pool, id: string, n: string, tree: Tree): Pool
    requires id in p.dirs && p.dirs[id].snaps.Some?
  {
    WithDir(p, id, p.dirs[id].(snaps := Some(p.dirs[id].snaps.value[n := Subvol(tree)])))
  }

  function WithSnapRow(p: Pool, id: string, n: string, created: int): Pool
    requires id in p.rows
  {
    WithRow(p, id, p.rows[id].(snaps := p.rows[id].snaps[n := created]))
  }

  lemma SnapSteps(p: Pool, id: string, n: string, tree: Tree, created: int)
    requires Inv(p) && id in p.rows && ValidSnapID(n)
    ensures Inv(Taken(p, id, n, tree)) && KeepsLost(p, Taken(p, id, n, tree))
    ensures Inv(WithSnapRow(p, id, n, created)) && KeepsLost(p, WithSnapRow(p, id, n, created))
  {
    hide KeepsLost, ValidEnvID, ValidSnapID, HoldsData;
    DirStep(p, id, Taken(p, id, n, tree).dirs[id]);
    IndexedStep(p, id, p.dirs[id], WithSnapRow(p, id, n, created).rows[id]);
    assert p.dirs[id := p.dirs[id]] == p.dirs;
  }

  // ----------------------------------------------------------------- restore

  /** Environment id can be restored to snapshot snap. */
  ghost predicate CanRestore(p: Pool, id: string, snap: string) {
    && Inv(p) && id in p.rows && ValidSnapID(snap)
    && snap in p.rows[id].snaps && snap in p.dirs[id].snaps.value && p.dirs[id].snaps.value[snap].Subvol?
    && PlaceOf(p, id, p.rows[id].workspace).Subvol?
  }

  /** The workspace before a restore is kept as the indexed snapshot pre. */
  ghost predicate KeptAs(p: Pool, id: string, pre: string, before: Place) {
    && id in p.rows && pre in p.rows[id].snaps
    && id in p.dirs && p.dirs[id].snaps.Some? && pre in p.dirs[id].snaps.value && p.dirs[id].snaps.value[pre] == before
  }

  /** A restore from p, wherever it stopped: the workspace is untouched, or
      the snapshot's with what it was before kept; the snapshot is there, and no
      other environment has changed. */
  ghost predicate Restoring(p: Pool, q: Pool, id: string, snap: string, pre: string, now: int)
    requires CanRestore(p, id, snap)
  {
    var w := p.rows[id].workspace;
    && Inv(q) && KeepsLost(p, q) && OnlyTouches(p, q, id, PathsOf(w)) && id in q.rows
    && q.rows[id].workspace == w
    && (|| PlaceOf(q, id, w) == PlaceOf(p, id, w)
        || (PlaceOf(q, id, w) == p.dirs[id].snaps.value[snap]
            && KeptAs(q, id, pre, PlaceOf(p, id, w)) && q.rows[id].snaps[pre] == now))
    && snap in q.rows[id].snaps && q.rows[id].snaps[snap] == p.rows[id].snaps[snap]
    && snap in q.dirs[id].snaps.value && q.dirs[id].snaps.value[snap] == p.dirs[id].snaps.value[snap]
    && KeepsRest(p.dirs[id], p.rows[id], q.dirs[id], q.rows[id], snap, pre, now)
  }

  /** What a restore to snap keeps of an environment: all but its workspace,
      live.new, the snapshot pre and the pre-restore snapshots over a day old,
      snap not among them. */
  ghost predicate KeepsRest(d: EnvDir, row: Row, e: EnvDir, r: Row, snap: string, pre: string, now: int) {
    && e.marker == d.marker && e.adoptNew == d.adoptNew && e.claude == d.claude && e.sources == d.sources
    && (row.workspace != Own ==> e.live == d.live)
    && r.workspace == row.workspace && r.git == row.git && d.snaps.Some? && e.snaps.Some?
    && (forall n | n != pre && n in e.snaps.value :: n in d.snaps.value && e.snaps.value[n] == d.snaps.value[n])
    && (forall n | n != pre && n in r.snaps :: n in row.snaps && r.snaps[n] == row.snaps[n])
    && (forall n | n != pre && n in d.snaps.value && !IsSpent(row, n, snap, now) :: n in e.snaps.value)
    && (forall n | n != pre && n in row.snaps && !IsSpent(row, n, snap, now) :: n in r.snaps)
  }

  /** Snapshot n is a pre-restore one over a day old, and not the one to restore. */
  predicate IsSpent(row: Row, n: string, snap: string, now: int) {
    IsPreRestore(n) && n != snap && n in row.snaps && row.snaps[n] < now - 86400
  }

  /** A restore that completed. */
  ghost predicate Restored(p: Pool, q: Pool, id: string, snap: string, pre: string, now: int)
    requires CanRestore(p, id, snap)
  {
    var w := p.rows[id].workspace;
    && id in q.dirs && PlaceOf(q, id, w) == p.dirs[id].snaps.value[snap]
    && KeptAs(q, id, pre, PlaceOf(p, id, w)) && q.rows[id].snaps[pre] == now && q.dirs[id].liveNew.Missing?
    && NoneSpent(q.rows[id], snap, now)
  }

  ghost predicate NoneSpent(row: Row, snap: string, now: int) {
    forall n | n in row.snaps :: !IsSpent(row, n, snap, now)
  }

  lemma PruneLeavesNone(row: Row, snap: string, now: int)
    requires Expired(row.snaps, snap, now) == {}
    ensures NoneSpent(row, snap, now)
  {
    hide IsPreRestore;
    forall n | n in row.snaps ensures !IsSpent(row, n, snap, now) {
      assert n !in Expired(row.snaps, snap, now);
    }
  }

  lemma NoneSpentMore(row: Row, pre: string, snap: string, now: int)
    requires NoneSpent(row, snap, now)
    ensures NoneSpent(row.(snaps := row.snaps[pre := now]), snap, now)
  {
    hide IsPreRestore;
  }

  lemma KeepsRestMore(d: EnvDir, row: Row, e: EnvDir, r: Row, snap: string, pre: string, now: int, x: Place)
    requires KeepsRest(d, row, e, r, snap, pre, now)
    ensures KeepsRest(d, row, e.(snaps := Some(e.snaps.value[pre := x])), r, snap, pre, now)
    ensures KeepsRest(d, row, e, r.(snaps := r.snaps[pre := now]), snap, pre, now)
    ensures KeepsRest(d, row, e.(liveNew := x), r, snap, pre, now)
    ensures row.workspace == Own ==> KeepsRest(d, row, e.(live := x), r, snap, pre, now)
  {
    hide IsSpent;
  }

  /** What holds at every step of a restore from p. */
  ghost predicate RestPhase(p: Pool, q: Pool, id: string, snap: string, pre: string, now: int) {
    && Inv(p) && id in p.rows && Inv(q) && KeepsLost(p, q)
    && (CanRestore(p, id, snap) ==> Restoring(p, q, id, snap, pre, now))
  }

  function Swapped(p: Pool, id: string): Pool
    requires id in p.dirs && id in p.rows
  {
    var w := p.rows[id].workspace;
    WithPlace(WithDir(p, id, p.dirs[id].(liveNew := PlaceOf(p, id, w))), id, w, p.dirs[id].liveNew)
  }

  lemma RowFacts(p: Pool, id: string)
    requires Inv(p) && id in p.rows
    ensures id in p.dirs && p.dirs[id].snaps.Some?
  {
  }

  lemma RestPrune(p: Pool, q: Pool, id: string, snap: string, pre: string, now: int)
    requires Inv(p) && id in p.rows && Inv(q) && KeepsLost(p, q) && Pruned(p, q, id, snap, now)
    ensures RestPhase(p, q, id, snap, pre, now)
  {
    hide Reconciled, KeepsLost;
  }

  lemma RestLiveNew(p: Pool, q: Pool, x: Place, id: string, snap: string, pre: string, now: int)
    requires RestPhase(p, q, id, snap, pre, now) && id in q.rows && (x.Missing? || x.Subvol?)
    ensures RestPhase(p, WithDir(q, id, q.dirs[id].(liveNew := x)), id, snap, pre, now)
  {
    var d := q.dirs[id].(liveNew := x);
    RowFacts(p, id);
    TouchesEnv(p, q, id, d, q.rows[id]);
    hide Reconciled, KeepsLost, OnlyTouches, HoldsData;
    DirStep(q, id, d);
    KeepsLostTrans(p, q, WithDir(q, id, d));
    hide Inv;
  }

  lemma RestTaken(p: Pool, q: Pool, id: string, snap: string, pre: string, now: int)
    requires RestPhase(p, q, id, snap, pre, now) && id in q.rows && ValidSnapID(pre)
    requires pre != snap && PlaceOf(q, id, q.rows[id].workspace).Subvol?
    requires PlaceOf(q, id, q.rows[id].workspace) == PlaceOf(p, id, p.rows[id].workspace)
    ensures RestPhase(p, Taken(q, id, pre, PlaceOf(q, id, q.rows[id].workspace).tree), id, snap, pre, now)
  {
    RowFacts(p, id);
    RowFacts(q, id);
    TouchesEnv(p, q, id, Taken(q, id, pre, PlaceOf(q, id, q.rows[id].workspace).tree).dirs[id], q.rows[id]);
    hide Reconciled, KeepsLost, ValidSnapID, Inv, OnlyTouches;
    var tree := PlaceOf(q, id, q.rows[id].workspace).tree;
    if CanRestore(p, id, snap) {
      KeepsRestMore(p.dirs[id], p.rows[id], q.dirs[id], q.rows[id], snap, pre, now, Subvol(tree));
    }
    hide KeepsRest, Pruned, IsPreRestore;
    SnapSteps(q, id, pre, tree, now);
    KeepsLostTrans(p, q, Taken(q, id, pre, tree));
  }

  lemma RestRow(p: Pool, q: Pool, id: string, snap: string, pre: string, now: int)
    requires RestPhase(p, q, id, snap, pre, now) && id in q.rows && ValidSnapID(pre) && pre != snap
    requires PlaceOf(q, id, q.rows[id].workspace) == PlaceOf(p, id, p.rows[id].workspace)
    ensures RestPhase(p, WithSnapRow(q, id, pre, now), id, snap, pre, now)
  {
    RowFacts(p, id);
    RowFacts(q, id);
    TouchesEnv(p, q, id, q.dirs[id], WithSnapRow(q, id, pre, now).rows[id]);
    hide Reconciled, KeepsLost, ValidSnapID, Inv, OnlyTouches;
    if CanRestore(p, id, snap) {
      KeepsRestMore(p.dirs[id], p.rows[id], q.dirs[id], q.rows[id], snap, pre, now, Missing);
    }
    hide KeepsRest;
    SnapSteps(q, id, pre, EMPTY, now);
    KeepsLostTrans(p, q, WithSnapRow(q, id, pre, now));
  }

  lemma RestSwap(p: Pool, q: Pool, id: string, snap: string, pre: string, now: int)
    requires RestPhase(p, q, id, snap, pre, now) && id in q.rows
    requires snap in q.dirs[id].snaps.value && q.dirs[id].liveNew == q.dirs[id].snaps.value[snap] &&
      q.dirs[id].liveNew.Subvol?
    requires PlaceOf(q, id, q.rows[id].workspace) == PlaceOf(p, id, p.rows[id].workspace)
    requires PlaceOf(q, id, q.rows[id].workspace).Subvol?
    requires KeptAs(q, id, pre, PlaceOf(p, id, p.rows[id].workspace)) && q.rows[id].snaps[pre] == now
    ensures RestPhase(p, Swapped(q, id), id, snap, pre, now)
    ensures PlaceOf(Swapped(q, id), id, q.rows[id].workspace) == q.dirs[id].snaps.value[snap]
    ensures KeptAs(Swapped(q, id), id, pre, PlaceOf(p, id, p.rows[id].workspace))
  {
    hide Reconciled, KeepsLost, ValidSnapID;
    RowFacts(p, id);
    RowFacts(q, id);
    hide Inv, OnlyTouches;
    SwapStep(p, q, id);
    SwapTouches(p, q, id);
  }

  lemma SwapTouches(p: Pool, q: Pool, id: string)
    requires id in q.rows && id in q.dirs
    ensures var paths := PathsOf(q.rows[id].workspace);
      OnlyTouches(p, q, id, paths) ==> OnlyTouches(p, Swapped(q, id), id, paths)
  {
  }

  lemma SwapStep(p: Pool, q: Pool, id: string)
    requires KeepsLost(p, q) && Inv(q) && id in q.rows
    requires q.dirs[id].liveNew.Subvol? && PlaceOf(q, id, q.rows[id].workspace).Subvol?
    ensures Inv(Swapped(q, id)) && KeepsLost(p, Swapped(q, id))
  {
    hide Reconciled, KeepsLost, ValidSnapID;
    var w := q.rows[id].workspace;
    var half := WithDir(q, id, q.dirs[id].(liveNew := PlaceOf(q, id, w)));
    DirStep(q, id, half.dirs[id]);
    PlaceStep(half, id, w, q.dirs[id].liveNew);
    KeepsLostTrans(p, q, half);
    KeepsLostTrans(p, half, Swapped(q, id));
  }

  /** What a restore of environment id from p to snapshot snap, cut off and
      recovered from at time later, leaves in f: the workspace is the old one
      or the snapshot's; in that case, for a day, the old one is an indexed
      snapshot. */
  ghost predicate Survived(p: Pool, f: Pool, id: string, snap: string, pre: string, now: int, later: int)
    requires CanRestore(p, id, snap)
  {
    var w := p.rows[id].workspace;
    && Inv(f) && id in f.rows && f.rows[id].workspace == w
    && (|| PlaceOf(f, id, w) == PlaceOf(p, id, w)
        || (PlaceOf(f, id, w) == p.dirs[id].snaps.value[snap]
            && (later <= now + PRE_RESTORE_KEEP ==> KeptAs(f, id, pre, PlaceOf(p, id, w)))))
  }

  /** The restore of environment id from p to snapshot snap can be made in f. */
  ghost predicate Repeatable(p: Pool, f: Pool, id: string, snap: string)
    requires CanRestore(p, id, snap)
  {
    CanRestore(f, id, snap) && f.dirs[id].snaps.value[snap] == p.dirs[id].snaps.value[snap]
  }

  lemma RepeatableExact(p: Pool, q: Pool, f: Pool, id: string, snap: string, pre: string, at: int, now: int)
    requires CanRestore(p, id, snap) && Restoring(p, q, id, snap, pre, at) && Survived(p, f, id, snap, pre, at, now)
    requires SnapshotsKept(q, f, now)
    ensures Repeatable(p, f, id, snap) <==> !(IsPreRestore(snap) && p.rows[id].snaps[snap] < now - PRE_RESTORE_KEEP)
  {
    hide IsPreRestore, KeepsLost, OnlyTouches;
    assert Indexed(q, id, snap);
  }

  lemma AlikeSurvives(p: Pool, a: Pool, f: Pool, id: string, snap: string, pre: string, now: int, later: int, all: bool)
    requires CanRestore(p, id, snap) && Survived(p, a, id, snap, pre, now, later) && Alike(a, f, all) && Inv(f)
    requires later <= now + PRE_RESTORE_KEEP ==> all
    ensures Survived(p, f, id, snap, pre, now, later)
    ensures all || !IsPreRestore(snap) ==> (Repeatable(p, f, id, snap) <==> Repeatable(p, a, id, snap))
  {
    hide IsPreRestore, ValidEnvID, ValidSnapID;
    assert SnapsAlike(a.dirs[id], a.rows[id], f.dirs[id], f.rows[id], all);
    assert f.dirs[id].live == f.dirs[id].(snaps := None).live &&
      f.rows[id].workspace == f.rows[id].(snaps := map[]).workspace;
  }

  /** A restore cut off anywhere, then reconciled. The same restore can be made
      again if and only if it wasn't to a pre-restore snapshot over a day old:
      the restore keeps that from being pruned, a Reconcile doesn't. */
  lemma RestoreSurvives(p: Pool, q: Pool, id: string, snap: string, pre: string, now: int, later: int)
    requires CanRestore(p, id, snap) && Restoring(p, q, id, snap, pre, now) && ValidSnapID(pre) && now <= later
    requires forall path | p.rows[id].workspace == At(path) :: !Doomed(p, path)
    ensures Survived(p, Reconciled(q, later), id, snap, pre, now, later)
    ensures Repeatable(p, Reconciled(q, later), id, snap)
      <==> !(IsPreRestore(snap) && p.rows[id].snaps[snap] < later - PRE_RESTORE_KEEP)
  {
    hide IsPreRestore;
    var f, w := Reconciled(q, later), p.rows[id].workspace;
    ReconciledIsClean(q, later);
    assert f.dirs[id] == SettledDir(q.dirs[id], q.rows[id], later);
    assert f.rows[id] == SettledRow(q.dirs[id], q.rows[id], later);
    WorkspaceStays(p, q, id, w, later);
    SettledKeeps(q.dirs[id], q.rows[id], snap, later);
    if pre in q.rows[id].snaps && q.rows[id].snaps[pre] == now && pre in q.dirs[id].snaps.value &&
      q.dirs[id].snaps.value[pre].Subvol? {
      SettledKeeps(q.dirs[id], q.rows[id], pre, later);
    }
  }

  function Undone(tree: Tree): Pool {
    Pool(
      map["a" := NEW_DIR.(live := Subvol(tree), snaps := Some(map["pre-restore-1" := Subvol(EMPTY)]),
        claude := Some(EMPTY))],
      map[], map["a" := Row(Own, "", map["pre-restore-1" := 0])])
  }

  /** An undo to a snapshot a little over a day old, stopped at once: it can't
      be made again. */
  lemma UndoIsLost(tree: Tree, pre: string)
    ensures var p, now := Undone(tree), PRE_RESTORE_KEEP + 1;
      && CanRestore(p, "a", "pre-restore-1") && Restoring(p, p, "a", "pre-restore-1", pre, now)
      && !CanRestore(Reconciled(p, now), "a", "pre-restore-1")
  {
    var p := Undone(tree);
    var n := "pre-restore-1";
    assert IsPreRestore(n);
    assert ValidSnapID(n);
    assert Inv(p) by { assert ValidEnvID("a"); }
    KeepsLostRefl(p);
    assert n in Expired(Found(p.dirs["a"].snaps.value, p.rows["a"].snaps, PRE_RESTORE_KEEP + 1), "",
      PRE_RESTORE_KEEP + 1);
  }

  /** Settling keeps a snapshot that is on disk and in the index unless it is a
      pre-restore one over a day old. */
  lemma SettledKeeps(d: EnvDir, row: Row, n: string, now: int)
    requires IndexedOk(d, row) && n in row.snaps && n in d.snaps.value && d.snaps.value[n].Subvol?
    ensures n in SettledRow(d, row, now).snaps <==> !(IsPreRestore(n) && row.snaps[n] < now - PRE_RESTORE_KEEP)
    ensures n in SettledDir(d, row, now).snaps.value <==> n in SettledRow(d, row, now).snaps
    ensures n in SettledDir(d, row, now).snaps.value ==> SettledDir(d, row, now).snaps.value[n] == d.snaps.value[n]
  {
    hide IsPreRestore;
  }

  /** The snapshots a Reconcile leaves are those on disk, but the pre-restore
      ones whose row is over a day old; with the time of their row, if any. */
  lemma SnapshotKept(p: Pool, id: string, n: string, now: int)
    requires Inv(p) && id in p.rows
    ensures var f, rows, d := Reconciled(p, now), p.rows[id].snaps, p.dirs[id];
      && id in f.rows && id in f.dirs && f.dirs[id].snaps.Some?
      && (n in f.rows[id].snaps <==>
           n in OnDisk(d.snaps.value) && !(IsPreRestore(n) && n in rows && rows[n] < now - PRE_RESTORE_KEEP))
      && (n in f.rows[id].snaps ==>
            && f.rows[id].snaps[n] == (if n in rows then rows[n] else now)
            && n in f.dirs[id].snaps.value && f.dirs[id].snaps.value[n] == d.snaps.value[n])
  {
    assert !IsPreRestore("");
    hide IsPreRestore, ValidSnapID, ValidEnvID;
    var f, d, row := Reconciled(p, now), p.dirs[id], p.rows[id];
    assert f.rows[id] == SettledRow(d, row, now) && f.dirs[id] == SettledDir(d, row, now);
    var found := Found(d.snaps.value, row.snaps, now);
    assert n in f.rows[id].snaps <==> n in found && n !in Expired(found, "", now);
  }

  /** An indexed snapshot of p's, over the Reconciles that lead to q, until one
      at time now: its subvolume and its row are there, or it has expired and
      won't come back. */
  ghost predicate StillKept(p: Pool, q: Pool, id: string, n: string, now: int)
    requires Inv(q) && Indexed(p, id, n)
  {
    && id in q.rows
    && if IsPreRestore(n) && p.rows[id].snaps[n] < now - PRE_RESTORE_KEEP then
         n !in Reconciled(q, now).rows[id].snaps
       else
         && Indexed(q, id, n) && q.rows[id].snaps[n] == p.rows[id].snaps[n]
         && q.dirs[id].snaps.value[n] == p.dirs[id].snaps.value[n]
  }

  ghost predicate AllStillKept(p: Pool, q: Pool, now: int)
    requires Inv(q)
  {
    forall id, n | Indexed(p, id, n) ::
      StillKept(p, q, id, n, now)
  }

  /** After the last Reconcile, at time now: the indexed snapshots of p's that
      are left, with their times, are all but the pre-restore ones over a day
      old. */
  ghost predicate SnapshotsKept(p: Pool, f: Pool, now: int) {
    forall id, n | Indexed(p, id, n) :: KeptAt(p, f, id, n, now)
  }

  ghost predicate KeptAt(p: Pool, f: Pool, id: string, n: string, now: int)
    requires Indexed(p, id, n)
  {
    && id in f.rows && id in f.dirs && f.dirs[id].snaps.Some?
    && (n in f.rows[id].snaps <==> !(IsPreRestore(n) && p.rows[id].snaps[n] < now - PRE_RESTORE_KEEP))
    && (n in f.rows[id].snaps ==>
          && f.rows[id].snaps[n] == p.rows[id].snaps[n]
          && n in f.dirs[id].snaps.value && f.dirs[id].snaps.value[n] == p.dirs[id].snaps.value[n])
  }

  lemma AllKeptAtFirst(p: Pool, now: int)
    requires Inv(p)
    ensures AllStillKept(p, p, now)
  {
    hide Reconciled, IsPreRestore, OnDisk, Inv;
    forall id, n | Indexed(p, id, n)
      ensures StillKept(p, p, id, n, now)
    {
      SnapshotKept(p, id, n, now);
    }
  }

  lemma AllKeptOn(p: Pool, q: Pool, r: Pool, t: int, now: int)
    requires Inv(q) && Inv(r) && AllStillKept(p, q, now) && Resumes(q, r, t) && t <= now
    ensures AllStillKept(p, r, now)
  {
    hide StillKept, Resumes, OnDisk;
    forall id, n | Indexed(p, id, n)
      ensures StillKept(p, r, id, n, now)
    {
      KeptOn(p, q, r, id, n, t, now);
    }
  }

  lemma KeptOn(p: Pool, q: Pool, r: Pool, id: string, n: string, t: int, now: int)
    requires Inv(q) && Inv(r) && Resumes(q, r, t) && t <= now
    requires Indexed(p, id, n) && StillKept(p, q, id, n, now)
    ensures StillKept(p, r, id, n, now)
  {
    SameRows(q, r, t);
    assert forall id | id in q.rows :: id in q.dirs && q.dirs[id].snaps.Some? && id in r.dirs && r.dirs[id].snaps.Some?;
    hide Reconciled, IsPreRestore, OnDisk, Alike, Inv;
    SnapshotKept(q, id, n, t);
    SnapshotKept(q, id, n, now);
    SnapshotKept(r, id, n, t);
    SnapshotKept(r, id, n, now);
  }

  lemma AllKeptAtLast(p: Pool, q: Pool, now: int)
    requires Inv(p) && Inv(q) && AllStillKept(p, q, now)
    ensures SnapshotsKept(p, Reconciled(q, now), now)
  {
    hide Reconciled, IsPreRestore, OnDisk, Inv;
    forall id, n | Indexed(p, id, n)
      ensures KeptAt(p, Reconciled(q, now), id, n, now)
    {
      assert StillKept(p, q, id, n, now);
      SnapshotKept(q, id, n, now);
    }
  }

  /** The snapshots pruned with the pre-restore ones that lack their prefix:
      those that have it but for an upper-case letter. */
  lemma LikeIgnoresCase(n: string)
    ensures IsPreRestore(n) && !(PRE_RESTORE_PREFIX <= n) <==>
      |n| >= |PRE_RESTORE_PREFIX| && SameLetters(n[..|PRE_RESTORE_PREFIX|], PRE_RESTORE_PREFIX) &&
        HasUpper(n[..|PRE_RESTORE_PREFIX|])
    ensures PRE_RESTORE_PREFIX <= n ==> IsPreRestore(n)
  {
    var k := |PRE_RESTORE_PREFIX|;
    if |n| >= k {
      var m := n[..k];
      assert forall i | 0 <= i < k :: m[i] == n[i];
      assert forall i | 0 <= i < k :: !('A' <= PRE_RESTORE_PREFIX[i] <= 'Z');
      assert PRE_RESTORE_PREFIX <= n <==> m == PRE_RESTORE_PREFIX;
      if IsPreRestore(n) && !HasUpper(m) {
        assert m == PRE_RESTORE_PREFIX;
      }
    }
  }

  predicate SameLetters(a: string, b: string) {
    |a| == |b| && forall i | 0 <= i < |a| :: LowerCase(a[i]) == b[i]
  }

  predicate HasUpper(a: string) {
    exists i | 0 <= i < |a| :: 'A' <= a[i] <= 'Z'
  }

  /** Such as a snapshot a person named Pre-Restore-x. */
  lemma NamedByAPerson(p: Pool, id: string, now: int)
    requires Inv(p) && id in p.rows && "Pre-Restore-x" in p.rows[id].snaps
    requires p.rows[id].snaps["Pre-Restore-x"] < now - PRE_RESTORE_KEEP
    ensures ValidSnapID("Pre-Restore-x") && !(PRE_RESTORE_PREFIX <= "Pre-Restore-x")
    ensures "Pre-Restore-x" !in Reconciled(p, now).rows[id].snaps
  {
    var n := "Pre-Restore-x";
    assert IsPreRestore(n);
    assert n[0] != PRE_RESTORE_PREFIX[0];
    hide Reconciled, IsPreRestore;
    SnapshotKept(p, id, n, now);
  }

  /** A workspace that is a subvolume, and that no unfinished delete named
      before, is still there after a Reconcile. */
  lemma WorkspaceStays(p: Pool, q: Pool, id: string, w: Workspace, now: int)
    requires Inv(p) && Inv(q) && id in q.rows && OnlyTouches(p, q, id, PathsOf(w))
    requires PlaceOf(q, id, w).Subvol?
    requires forall path | w == At(path) :: !Doomed(p, path)
    requires id in p.rows
    ensures id in Reconciled(q, now).dirs && PlaceOf(Reconciled(q, now), id, w) == PlaceOf(q, id, w)
  {
    TouchesFrame(p, q, id, PathsOf(w));
    if w.At? && Doomed(q, w.path) {
      var i :| Garbage(q, i) && q.dirs[i].marker == Marked(Some(At(w.path)));
      assert Garbage(p, i);
      assert Doomed(p, w.path);
    }
  }

  // ------------------------------------------------------------------- adopt

  /** What making a workspace may make of a place: an empty subvolume of
      nothing; of a plain directory a subvolume with its work. */
  ghost predicate PlaceKept(before: Place, after: Place) {
    match before
    case Missing => after.Missing? || after == Subvol(EMPTY)
    case NotDir => after == before
    case Plain(work) => after == before || (after.Subvol? && HoldsWork(after.tree, work))
    case Subvol(_) => after == before
  }

  /** Adopting from p, wherever it stopped: besides the workspace, only
      adopt.new in the environment's directory differs. */
  ghost predicate Adopting(p: Pool, q: Pool, id: string, w: Workspace) {
    && Inv(q) && KeepsLost(p, q) && q.rows == p.rows
    && id in p.dirs && id in q.dirs && q.dirs - {id} == p.dirs - {id} && q.work - PathsOf(w) == p.work - PathsOf(w)
    && q.dirs[id] == p.dirs[id].(adoptNew := q.dirs[id].adoptNew, live := q.dirs[id].live)
    && (w.At? ==> q.dirs[id].live == p.dirs[id].live)
    && PlaceKept(PlaceOf(p, id, w), PlaceOf(q, id, w))
  }

  lemma AdoptNewStep(p: Pool, q: Pool, id: string, w: Workspace, x: Place)
    requires Adopting(p, q, id, w) && ValidEnvID(id) && Covered(q, id)
    ensures Adopting(p, WithDir(q, id, q.dirs[id].(adoptNew := x)), id, w)
  {
    hide Reconciled, KeepsLost, ValidEnvID;
    DirStep(q, id, q.dirs[id].(adoptNew := x));
    KeepsLostTrans(p, q, WithDir(q, id, q.dirs[id].(adoptNew := x)));
    hide Inv;
  }

  lemma AdoptPlaceStep(p: Pool, q: Pool, id: string, w: Workspace, at: Place)
    requires Adopting(p, q, id, w) && ValidEnvID(id) && Covered(q, id) && (at.Missing? || at.Subvol?)
    requires PlaceKept(PlaceOf(p, id, w), at)
    ensures Adopting(p, WithPlace(q, id, w, at), id, w)
  {
    hide Reconciled, KeepsLost, ValidEnvID, HoldsWork;
    PlaceStep(q, id, w, at);
    KeepsLostTrans(p, q, WithPlace(q, id, w, at));
    hide Inv;
  }
}
