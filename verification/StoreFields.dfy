/** What the store's recovery does, told in the fields of the pool alone. */
module StoreFields {
  import opened Names
  import opened Options
  import opened Trees
  import opened StorePool

  /** A directory that no row and no marker accounts for, with a live/, an entry
      of snaps/ or an entry of Claude's folder. */
  ghost predicate Stray(p: Pool, id: string) {
    && id in p.dirs && ValidEnvID(id) && id !in p.rows && p.dirs[id].marker == Unmarked
    && (|| p.dirs[id].live != Missing
        || (exists n :: p.dirs[id].snaps.Some? && n in p.dirs[id].snaps.value)
        || (exists path :: p.dirs[id].claude.Some? && path in p.dirs[id].claude.value))
  }

  lemma LostIsStray(p: Pool, id: string)
    ensures Lost(p, id) <==> Stray(p, id)
  {
    if id in p.dirs {
      var d := p.dirs[id];
      if d.snaps.Some? && d.snaps.value != map[] {
        assert d.snaps.value.Keys != {};
        var n :| n in d.snaps.value.Keys;
      }
      if d.claude.Some? && d.claude.value != EMPTY {
        assert d.claude.value.Keys != {};
        var path :| path in d.claude.value.Keys;
      }
    }
  }

  /** From p to q no stray directory was touched, and none came. */
  ghost predicate KeepsStrays(p: Pool, q: Pool) {
    && (forall id | Stray(p, id) :: id in q.dirs && q.dirs[id] == p.dirs[id] && id !in q.rows)
    && (forall id | Stray(q, id) :: Stray(p, id))
  }

  lemma StraysKept(p: Pool, q: Pool)
    requires KeepsLost(p, q)
    ensures KeepsStrays(p, q)
  {
    hide ValidEnvID, HoldsData;
    forall id ensures (Lost(p, id) <==> Stray(p, id)) && (Lost(q, id) <==> Stray(q, id)) {
      LostIsStray(p, id);
      LostIsStray(q, id);
    }
    hide Stray;
  }

  /** The snapshot is a pre-restore one with a row over a day old. */
  predicate IsExpired(row: Row, n: string, now: int) {
    IsPreRestore(n) && n in row.snaps && row.snaps[n] < now - 86400
  }

  /** An indexed environment, d and row, as a Reconcile leaves it. */
  ghost predicate Settles(d: EnvDir, row: Row, e: EnvDir, r: Row, now: int) {
    && e.marker == Unmarked && e.liveNew == Missing && e.adoptNew == Missing
    && e.claude == d.claude && e.sources == d.sources
    && e.live == (if d.live == Missing && row.workspace == Own then Subvol(map[]) else d.live)
    && r.workspace == row.workspace && r.git == row.git
    && d.snaps.Some? && e.snaps.Some?
    && (forall n :: n in e.snaps.value <==>
          n in d.snaps.value && !(d.snaps.value[n].Subvol? && ValidSnapID(n) && IsExpired(row, n, now)))
    && (forall n | n in e.snaps.value :: n in d.snaps.value && e.snaps.value[n] == d.snaps.value[n])
    && (forall n :: n in r.snaps <==> n in e.snaps.value && e.snaps.value[n].Subvol? && ValidSnapID(n))
    && (forall n | n in r.snaps :: r.snaps[n] == if n in row.snaps then row.snaps[n] else now)
  }

  /** From p to q, all a Reconcile does: an environment with a row is settled; a
      directory without one stays if it is stray or no environment's, and goes
      otherwise; a worktree goes if it is a subvolume that the marker of a
      directory without a row names. */
  ghost predicate Reconciles(p: Pool, q: Pool, now: int) {
    && q.rows.Keys == p.rows.Keys
    && (forall id | id in p.rows :: id in p.dirs && id in q.dirs && id in q.rows
          && Settles(p.dirs[id], p.rows[id], q.dirs[id], q.rows[id], now))
    && (forall id | id !in p.rows :: id in q.dirs <==> id in p.dirs && (!ValidEnvID(id) || Stray(p, id)))
    && (forall id | id !in p.rows && id in q.dirs :: id in p.dirs && q.dirs[id] == p.dirs[id])
    && (forall path :: path in q.work <==> path in p.work && !(p.work[path].Subvol? && Condemned(p, path)))
    && (forall path | path in q.work :: path in p.work && q.work[path] == p.work[path])
  }

  ghost predicate Condemned(p: Pool, path: string) {
    exists id :: id in p.dirs && ValidEnvID(id) && id !in p.rows && p.dirs[id].marker == Marked(Some(At(path)))
  }

  lemma SettledFields(d: EnvDir, row: Row, now: int)
    requires IndexedOk(d, row)
    ensures Settles(d, row, SettledDir(d, row, now), SettledRow(d, row, now), now)
  {
    assert PRE_RESTORE_KEEP == 86400;
    assert !IsPreRestore("");
    hide IsPreRestore, ValidSnapID;
  }

  lemma ReconciledRows(p: Pool, now: int, id: string)
    requires Inv(p) && id in p.rows
    ensures var q := Reconciled(p, now);
      && id in p.dirs && id in q.dirs && id in q.rows
      && Settles(p.dirs[id], p.rows[id], q.dirs[id], q.rows[id], now)
  {
    SettledFields(p.dirs[id], p.rows[id], now);
    hide Settles, SettledDir, SettledRow, ValidEnvID, HoldsData;
  }

  lemma ReconciledDirs(p: Pool, now: int, id: string)
    requires Inv(p) && id !in p.rows
    ensures var q := Reconciled(p, now);
      && (id in q.dirs <==> id in p.dirs && (!ValidEnvID(id) || Stray(p, id)))
      && (id in q.dirs ==> id in p.dirs && q.dirs[id] == p.dirs[id])
  {
    LostIsStray(p, id);
    hide Stray, SettledDir, SettledRow, ValidEnvID, HoldsData, IndexedOk;
  }

  lemma ReconciledWork(p: Pool, now: int, path: string)
    requires Inv(p)
    ensures var q := Reconciled(p, now);
      && (path in q.work <==> path in p.work && !(p.work[path].Subvol? && Condemned(p, path)))
      && (path in q.work ==> path in p.work && q.work[path] == p.work[path])
  {
    hide SettledDir, SettledRow, ValidEnvID, HoldsData, IndexedOk;
    assert Doomed(p, path) <==> Condemned(p, path);
  }

  lemma ReconciledFields(p: Pool, now: int)
    requires Inv(p)
    ensures Reconciles(p, Reconciled(p, now), now)
  {
    assert Reconciled(p, now).rows.Keys == p.rows.Keys;
    hide Settles, Reconciled, Stray, Condemned, ValidEnvID, Inv;
    forall id | id in p.rows {
      ReconciledRows(p, now, id);
    }
    forall id | id !in p.rows {
      ReconciledDirs(p, now, id);
    }
    forall path: string {
      ReconciledWork(p, now, path);
    }
  }
}
