/** The store's operations (internal/store) as sequences of atomic steps: one
    ioctl, one rename, one statement or transaction, one file written or
    removed. A budget of steps runs out anywhere, as a crash or an error of
    the system would stop the operation there. */
module Store {
  import opened Options
  import opened Names
  import opened Trees
  import opened StorePool
  import opened StoreFields

  datatype Error = Stopped | NotFound | Unindexed | InvalidID | InvalidPath | PoolFull | Exists

  datatype Outcome = Pass | Fail(error: Error) {
    predicate IsFailure() { Fail? }
    function PropagateFailure(): Outcome
      requires Fail?
    { this }
  }

  /** The worktree the marker of environment id's delete names. */
  function Named(p: Pool, id: string): set<string> {
    if id in p.dirs && p.dirs[id].marker.Marked? && p.dirs[id].marker.names.Some? && p.dirs[id].marker.names.value.At?
    then {p.dirs[id].marker.names.value.path} else {}
  }

  /** The pool without environment id's directory and the subvolume its marker names. */
  function Cleared(p: Pool, id: string): Pool {
    p.(dirs := p.dirs - {id},
       work := map path | path in p.work && !(path in Named(p, id) && p.work[path].Subvol?) :: p.work[path])
  }

  /** Worktree path is a subvolume that the marker of environment id's delete names. */
  predicate IsNamed(p: Pool, id: string, path: string) {
    path in Named(p, id) && WorkAt(p, path).Subvol?
  }

  /** Clearing an environment's leftovers, as its Delete or Create made again
      does, takes a worktree away if and only if the marker names it and it is
      a subvolume, whoever's workspace it is by then. */
  lemma ClearedKeeps(p: Pool, id: string, path: string)
    ensures WorkAt(Cleared(p, id), path) == WorkAt(p, path) <==> !IsNamed(p, id, path)
  {
  }

  /** From p to q, environment id went: its row, its directory and the workspace
      the row names; without a row, the one that the marker names. A worktree
      that isn't a subvolume stays. */
  ghost predicate Removes(p: Pool, q: Pool, id: string) {
    && q.rows == p.rows - {id} && q.dirs == p.dirs - {id}
    && (forall path :: path in q.work <==> path in p.work && !(p.work[path].Subvol? && GoesWith(p, id, path)))
    && (forall path | path in q.work :: path in p.work && q.work[path] == p.work[path])
  }

  predicate GoesWith(p: Pool, id: string, path: string) {
    if id in p.rows then p.rows[id].workspace == At(path)
    else id in p.dirs && p.dirs[id].marker == Marked(Some(At(path)))
  }

  lemma RemovesAll(p: Pool, id: string)
    ensures id in p.rows ==> Removes(p, Deleted(p, id), id)
    ensures id !in p.rows ==> Removes(p, Cleared(p, id), id)
  {
    assert id !in p.rows ==> p.rows - {id} == p.rows;
  }

  /** The pool with environment id's delete stopped just after its row went. */
  function HalfDeleted(p: Pool, id: string): Pool
    requires id in p.rows && id in p.dirs
  {
    p.(rows := p.rows - {id}, dirs := p.dirs[id := p.dirs[id].(marker := Marked(Some(p.rows[id].workspace)))])
  }

  lemma ClearedHalf(p: Pool, id: string)
    requires id in p.rows && id in p.dirs
    ensures Cleared(HalfDeleted(p, id), id) == Deleted(p, id)
    ensures !Lost(HalfDeleted(p, id), id)
  {
    assert HalfDeleted(p, id).dirs - {id} == p.dirs - {id};
    assert Cleared(HalfDeleted(p, id), id).work == Deleted(p, id).work;
  }

  lemma RowStays(p: Pool, q: Pool, id: string)
    requires id in q.rows && OnlyTouches(p, q, id, {})
    ensures !Garbage(q, id) && OnlyTouches(p, q, id, Named(p, id))
  {
    var n := Named(p, id);
    assert q.work - {} == q.work && p.work - {} == p.work;
  }

  /** From p to q, part of what environment id's unfinished create or delete
      left in its directory has gone. */
  ghost predicate Clears(p: Pool, q: Pool, id: string, now: int) {
    && SameAfterReconcile(p, q, now) && KeepsLost(p, q) && OnlyDir(p, q, id)
    && Garbage(p, id) && Garbage(q, id) && q.dirs[id].marker == p.dirs[id].marker
  }

  /** Taking snapshot n, from p to q: one that is on disk is kept and has a row;
      otherwise the workspace as it is goes to disk, then the row is written. */
  ghost predicate Takes(p: Pool, q: Pool, id: string, n: string, now: int, r: Outcome)
    requires Inv(p) && id in p.rows
  {
    var w, d, row := PlaceOf(p, id, p.rows[id].workspace), p.dirs[id], p.rows[id];
    var rows := p.rows[id := row.(snaps := row.snaps[n := now])];
    var taken := p.(dirs := p.dirs[id := d.(snaps := Some(d.snaps.value[n := w]))]);
    if n in d.snaps.value then
      && (q == p || (n !in row.snaps && q == p.(rows := rows)))
      && (r.Pass? ==> id in q.rows && n in q.rows[id].snaps) && (r.Fail? ==> r == Fail(Stopped))
    else if w.Subvol? then
      && (q == p || q == taken || q == taken.(rows := rows))
      && (r.Pass? ==> q == taken.(rows := rows)) && (r.Fail? ==> r == Fail(Stopped))
    else r == Fail(NotFound) && q == p
  }

  lemma ClearsNothing(p: Pool, id: string, now: int)
    requires Inv(p) && Garbage(p, id)
    ensures Clears(p, p, id, now)
  {
  }

  class Store {
    const endless: bool // nothing stops it
    var pool: Pool
    var budget: nat     // the steps to go, otherwise

    constructor (pool: Pool, budget: nat, endless: bool)
      ensures this.pool == pool && this.budget == budget && this.endless == endless
    {
      this.pool, this.budget, this.endless := pool, budget, endless;
    }

    predicate Spent()
      reads this
    {
      !endless && budget == 0
    }

    /** One atomic step, unless the operation stops before it. */
    method Commit(next: Pool) returns (r: Outcome)
      modifies this
      ensures r == if old(Spent()) then Fail(Stopped) else Pass
      ensures pool == if old(Spent()) then old(pool) else next
      ensures budget == if old(budget) == 0 then 0 else old(budget) - 1
    {
      if Spent() {
        return Fail(Stopped);
      }
      budget := if budget == 0 then 0 else budget - 1;
      pool := next;
      return Pass;
    }

    // -------------------------------------------------------- recover.go

    /** removeDisk, of a directory that is garbage. */
    method RemoveDisk(id: string, ghost now: int) returns (r: Outcome)
      requires Inv(pool) && Garbage(pool, id)
      modifies this
      ensures old(Spent()) ==> pool == old(pool) && Spent()
      ensures SameAfterReconcile(old(pool), pool, now) && KeepsLost(old(pool), pool)
      ensures OnlyTouches(old(pool), pool, id, Named(old(pool), id)) && id !in pool.rows
      ensures r.Pass? ==> pool == Cleared(old(pool), id)
      ensures r.Fail? ==>
        r == Fail(Stopped) && Garbage(pool, id) && pool.dirs[id].marker == old(pool).dirs[id].marker && Spent()
      ensures forall path | !IsNamed(old(pool), id, path) :: WorkAt(pool, path) == WorkAt(old(pool), path)
    {
      hide SameAfterReconcile, KeepsLost, Inv, HoldsData, ValidEnvID;
      ghost var p0 := pool;
      r := RemoveOwn(id, now);
      if r.Fail? { return; }
      ghost var p1 := pool;
      r := RemoveNamed(id, now);
      Onwards(p0, p1, pool, now);
      if r.Fail? { return; }
      if pool.dirs[id].snaps.Some? {
        ghost var p2 := pool;
        r := RemoveSnaps(id, now);
        Onwards(p0, p2, pool, now);
        if r.Fail? { return; }
      }
      ghost var p3 := pool;
      GarbageGone(pool, id, now);
      Onwards(p0, p3, p3.(dirs := p3.dirs - {id}), now);
      r := Commit(pool.(dirs := pool.dirs - {id}));
      assert r.Pass? ==> pool.dirs == old(pool).dirs - {id};
    }

    /** Deletes live, live.new and adopt.new, those that are subvolumes. */
    method RemoveOwn(id: string, ghost now: int) returns (r: Outcome)
      requires Inv(pool) && Garbage(pool, id)
      modifies this
      ensures old(Spent()) ==> pool == old(pool) && Spent()
      ensures Inv(pool) && Clears(old(pool), pool, id, now)
      ensures r.Fail? ==> r == Fail(Stopped) && Spent()
    {
      hide Clears, Inv;
      ClearsNothing(pool, id, now);
      var d := pool.dirs[id];
      if d.live.Subvol? {
        :- DropFrom(id, d.(live := Missing), old(pool), now);
      }
      d := pool.dirs[id];
      if d.liveNew.Subvol? {
        :- DropFrom(id, d.(liveNew := Missing), old(pool), now);
      }
      d := pool.dirs[id];
      if d.adoptNew.Subvol? {
        :- DropFrom(id, d.(adoptNew := Missing), old(pool), now);
      }
      r := Pass;
    }

    /** Deletes one subvolume in a directory that is garbage. */
    method DropFrom(id: string, d: EnvDir, ghost p0: Pool, ghost now: int) returns (r: Outcome)
      requires Inv(pool) && Garbage(pool, id) && d.marker == pool.dirs[id].marker && Garbage(WithDir(pool, id, d), id)
      requires Clears(p0, pool, id, now)
      modifies this
      ensures old(Spent()) ==> pool == old(pool) && Spent()
      ensures Inv(pool) && Clears(p0, pool, id, now)
      ensures pool == old(pool) || pool == WithDir(old(pool), id, d)
      ensures r.Fail? ==> r == Fail(Stopped) && Spent()
    {
      hide Reconciled;
      GarbageStep(pool, id, d, now);
      r := Commit(WithDir(pool, id, d));
    }

    method RemoveNamed(id: string, ghost now: int) returns (r: Outcome)
      requires Inv(pool) && Garbage(pool, id)
      modifies this
      ensures old(Spent()) ==> pool == old(pool) && Spent()
      ensures SameAfterReconcile(old(pool), pool, now) && KeepsLost(old(pool), pool)
      ensures pool.dirs == old(pool).dirs && pool.rows == old(pool).rows
      ensures pool.work == if r.Pass? then Cleared(old(pool), id).work else old(pool).work
      ensures r.Fail? ==> r == Fail(Stopped) && Spent()
    {
      var d := pool.dirs[id];
      if d.marker.Marked? && d.marker.names.Some? && d.marker.names.value.At? {
        var path := d.marker.names.value.path;
        if WorkAt(pool, path).Subvol? {
          GarbageWork(pool, id, path, now);
          :- Commit(WithWork(pool, path, Missing));
        }
      }
      assert pool.work == Cleared(old(pool), id).work;
      r := Pass;
    }

    method RemoveSnaps(id: string, ghost now: int) returns (r: Outcome)
      requires Inv(pool) && Garbage(pool, id) && pool.dirs[id].snaps.Some?
      modifies this
      ensures old(Spent()) ==> pool == old(pool) && Spent()
      ensures Inv(pool) && Clears(old(pool), pool, id, now)
      ensures r.Fail? ==> r == Fail(Stopped) && Spent()
    {
      hide Clears, Inv;
      ClearsNothing(pool, id, now);
      var todo := pool.dirs[id].snaps.value.Keys;
      while todo != {}
        invariant Inv(pool) && Garbage(pool, id) && pool.dirs[id].snaps.Some?
        invariant Clears(old(pool), pool, id, now)
        invariant old(Spent()) ==> pool == old(pool) && Spent()
      {
        var n :| n in todo;
        todo := todo - {n};
        var d := pool.dirs[id];
        if n in d.snaps.value && d.snaps.value[n].Subvol? {
          var d' := d.(snaps := Some(d.snaps.value - {n}));
          :- DropFrom(id, d', old(pool), now);
        }
      }
      r := Pass;
    }

    /** clearLeftovers. */
    method ClearLeftovers(id: string, ghost now: int) returns (r: Outcome)
      requires Inv(pool) && ValidEnvID(id) && id !in pool.rows
      modifies this
      ensures old(Spent()) ==> pool == old(pool) && Spent()
      ensures SameAfterReconcile(old(pool), pool, now) && KeepsLost(old(pool), pool)
      ensures OnlyTouches(old(pool), pool, id, Named(old(pool), id)) && id !in pool.rows
      ensures r.Pass? ==> pool == Cleared(old(pool), id)
      ensures r.Fail? ==> r.error in {Stopped, Unindexed} && (r.error == Stopped ==> Spent() && Garbage(pool, id))
      ensures r == Fail(Unindexed) <==> Lost(old(pool), id)
      ensures r == Fail(Unindexed) <==> Stray(old(pool), id)
      ensures Lost(old(pool), id) ==> pool == old(pool)
      ensures forall path | !IsNamed(old(pool), id, path) :: WorkAt(pool, path) == WorkAt(old(pool), path)
    {
      LostIsStray(pool, id);
      hide Stray;
      if id !in pool.dirs {
        assert pool.dirs - {id} == pool.dirs;
        assert Cleared(pool, id).work == pool.work;
        return Pass;
      }
      if pool.dirs[id].marker.Unmarked? && HoldsData(pool.dirs[id]) {
        return Fail(Unindexed);
      }
      r := RemoveDisk(id, now);
    }

    /** writeMarker, of an environment with a row: its file is made or emptied,
        then written. */
    method MarkIndexed(id: string, ghost later: int) returns (r: Outcome)
      requires Inv(pool) && id in pool.rows
      modifies this
      ensures !endless && old(budget) >= 2 ==> r.Pass? && budget == old(budget) - 2
      ensures SameAfterReconcile(old(pool), pool, later) && KeepsLost(old(pool), pool)
      ensures OnlyDir(old(pool), pool, id) && id in pool.dirs
      ensures pool.dirs[id] == old(pool).dirs[id].(marker := pool.dirs[id].marker)
      ensures r.Pass? ==> pool.dirs[id].marker == Marked(Some(pool.rows[id].workspace))
      ensures r.Fail? ==> r == Fail(Stopped) && Spent()
    {
      hide Reconciled, KeepsLost;
      var d := pool.dirs[id];
      var d1, d2 := d.(marker := Marked(None)), d.(marker := Marked(Some(pool.rows[id].workspace)));
      KeepsLostRefl(pool);
      SettleDirStep(pool, id, d1, later);
      SettleDirStep(pool, id, d2, later);
      :- Commit(WithDir(pool, id, d1));
      assert WithDir(pool, id, d2) == WithDir(old(pool), id, d2);
      :- Commit(WithDir(pool, id, d2));
      r := Pass;
    }

    /** Delete. Stopped anywhere, the environment is, after a Reconcile, as it
        was or wholly gone. */
    method Delete(id: string, ghost later: int) returns (r: Outcome)
      requires Inv(pool)
      modifies this
      ensures Inv(pool) && KeepsLost(old(pool), pool)
      ensures SameAfterReconcile(old(pool), pool, later)
        || (id in old(pool).rows && SameAfterReconcile(Deleted(old(pool), id), pool, later))
      ensures ValidEnvID(id) && id in old(pool).rows && !endless && old(budget) == 3 ==>
        pool == HalfDeleted(old(pool), id)
      ensures r.Pass? ==> pool == if id in old(pool).rows then Deleted(old(pool), id) else Cleared(old(pool), id)
      ensures r.Pass? ==> Removes(old(pool), pool, id)
      ensures KeepsStrays(old(pool), pool)
      ensures r.Fail? ==>
        || (r.error == Stopped && Spent())
        || (r.error == InvalidID && !ValidEnvID(id) && pool == old(pool))
        || (r.error == Unindexed && Stray(old(pool), id) && pool == old(pool))
    {
      assert id in pool.rows ==> id in pool.dirs;
      RemovesAll(pool, id);
      LostIsStray(pool, id);
      hide Reconciled, KeepsLost, Inv, Deleted, HalfDeleted, Removes, Lost, Stray, Cleared, KeepsStrays;
      KeepsLostRefl(pool);
      if !ValidEnvID(id) {
        StraysKept(pool, pool);
        return Fail(InvalidID);
      }
      if id in pool.rows {
        r := DeleteIndexed(id, later);
      } else {
        r := ClearLeftovers(id, later);
      }
      StraysKept(old(pool), pool);
    }

    method DeleteIndexed(id: string, ghost later: int) returns (r: Outcome)
      requires Inv(pool) && ValidEnvID(id) && id in pool.rows
      modifies this
      ensures Inv(pool) && KeepsLost(old(pool), pool)
      ensures SameAfterReconcile(old(pool), pool, later) || SameAfterReconcile(Deleted(old(pool), id), pool, later)
      ensures !endless && old(budget) == 3 ==> pool == HalfDeleted(old(pool), id)
      ensures r.Pass? ==> pool == Deleted(old(pool), id)
      ensures r.Fail? ==> r.error == Stopped && Spent()
    {
      assert id in pool.dirs;
      hide Reconciled, KeepsLost, Inv, SameAfterReconcile, HoldsData;
      ghost var p0 := pool;
      :- MarkIndexed(id, later);
      ghost var p1 := pool;
      DirsBut(p1.dirs, p0.dirs, id);
      UnindexStep(p1, id, later);
      assert Deleted(p1, id) == Deleted(p0, id);
      ghost var p2 := p1.(rows := p1.rows - {id});
      KeepsLostTrans(p0, p1, p2);
      ClearedHalf(p0, id);
      :- Commit(pool.(rows := pool.rows - {id}));
      r := ClearLeftovers(id, later);
      KeepsLostTrans(p0, p2, pool);
      SameTrans(Deleted(p0, id), p2, pool, later);
    }

    // ------------------------------------------------------- snapshot.go

    /** DeleteSnapshot: the subvolume goes first. */
    method DeleteSnapshot(id: string, n: string) returns (r: Outcome)
      requires Inv(pool)
      modifies this
      ensures Inv(pool) && KeepsLost(old(pool), pool)
      ensures id in old(pool).rows && ValidSnapID(n) ==>
        var p, row, d := old(pool), old(pool).rows[id], old(pool).dirs[id];
        var gone := if n in d.snaps.value && d.snaps.value[n].Subvol?
          then p.(dirs := p.dirs[id := d.(snaps := Some(d.snaps.value - {n}))]) else p;
        && (r.Pass? ==> pool == gone.(rows := p.rows[id := row.(snaps := row.snaps - {n})]))
        && (r.Fail? ==> r == Fail(Stopped) && Spent() && (pool == old(pool) || pool == gone))
      ensures !(id in old(pool).rows && ValidSnapID(n)) ==>
        pool == old(pool) && r.Fail? && r.error in {InvalidID, NotFound}
    {
      hide Reconciled;
      if !ValidSnapID(n) || !ValidEnvID(id) {
        return Fail(InvalidID);
      }
      if id !in pool.rows {
        return Fail(NotFound);
      }
      ghost var d := pool.dirs[id];
      IndexedStep(pool, id, WithoutSubvol(pool, id, n).dirs[id], pool.rows[id]);
      IndexedStep(pool, id, WithoutSubvol(pool, id, n).dirs[id], WithoutSnapRow(pool, id, n).rows[id]);
      assert pool.rows[id := pool.rows[id]] == pool.rows && pool.dirs[id := d] == pool.dirs;
      if n in pool.dirs[id].snaps.value && pool.dirs[id].snaps.value[n].Subvol? {
        :- Commit(WithoutSubvol(pool, id, n));
      }
      :- Commit(WithoutSnapRow(pool, id, n));
      r := Pass;
    }

    method PruneOne(id: string, n: string, keep: string, now: int, ghost p0: Pool) returns (r: Outcome)
      requires Inv(pool) && id in pool.rows && n in Expired(pool.rows[id].snaps, keep, now)
      requires SameAfterReconcile(p0, pool, now) && KeepsLost(p0, pool) && Pruned(p0, pool, id, keep, now)
      modifies this
      ensures Inv(pool) && id in pool.rows
      ensures SameAfterReconcile(p0, pool, now) && KeepsLost(p0, pool) && Pruned(p0, pool, id, keep, now)
      ensures r.Pass? ==> pool.rows[id].snaps == old(pool).rows[id].snaps - {n}
      ensures r.Pass? && Listed(old(pool), id) ==> Listed(pool, id)
      ensures r.Fail? ==> r == Fail(Stopped) && Spent()
    {
      assert id in pool.dirs && pool.dirs[id].snaps.Some? && ValidSnapID(n);
      hide SameAfterReconcile, KeepsLost, IsPreRestore, ValidSnapID, Pruned, Inv, Listed;
      if Listed(pool, id) {
        ListedLess(pool, id, n);
      }
      ExpireStep(pool, id, n, now);
      PrunedMore(p0, pool, id, n, keep, now);
      Onwards(p0, pool, WithoutSubvol(pool, id, n), now);
      Onwards(p0, pool, WithoutSnapRow(WithoutSubvol(pool, id, n), id, n), now);
      r := DeleteSnapshot(id, n);
    }

    /** prunePreRestores. A Reconcile from then on finds nothing of it to redo. */
    method PrunePreRestores(id: string, keep: string, now: int) returns (r: Outcome)
      requires Inv(pool) && id in pool.rows
      modifies this
      ensures SameAfterReconcile(old(pool), pool, now) && KeepsLost(old(pool), pool)
      ensures Pruned(old(pool), pool, id, keep, now)
      ensures r.Pass? ==> Expired(pool.rows[id].snaps, keep, now) == {}
      ensures r.Pass? && Listed(old(pool), id) ==> Listed(pool, id)
      ensures r.Fail? ==> r == Fail(Stopped) && Spent()
    {
      KeepsLostRefl(pool);
      PrunedNothing(pool, id, keep, now);
      hide SameAfterReconcile, KeepsLost, Expired, Pruned, Listed, Inv;
      var expired := Expired(pool.rows[id].snaps, keep, now);
      while expired != {}
        invariant Inv(pool) && id in pool.rows
        invariant SameAfterReconcile(old(pool), pool, now) && KeepsLost(old(pool), pool)
        invariant Pruned(old(pool), pool, id, keep, now)
        invariant expired == Expired(pool.rows[id].snaps, keep, now)
        invariant Listed(old(pool), id) ==> Listed(pool, id)
      {
        var n :| n in expired;
        ExpiredLess(pool.rows[id].snaps, n, keep, now);
        r := PruneOne(id, n, keep, now, old(pool));
        if r.Fail? { return; }
        expired := expired - {n};
      }
      r := Pass;
    }

    /** snapshot: a snapshot on disk keeps its row or gets one; otherwise it is
        taken, and its row written. */
    method TakeSnapshot(id: string, n: string, now: int) returns (r: Outcome)
      requires Inv(pool) && id in pool.rows && ValidSnapID(n)
      modifies this
      ensures Inv(pool) && KeepsLost(old(pool), pool)
      ensures Takes(old(pool), pool, id, n, now, r) && (r == Fail(Stopped) ==> Spent())
    {
      hide Reconciled, KeepsLost, ValidSnapID;
      KeepsLostRefl(pool);
      ghost var p0 := pool;
      if n in pool.dirs[id].snaps.value {
        SnapSteps(pool, id, n, EMPTY, now);
        if n !in pool.rows[id].snaps {
          :- Commit(WithSnapRow(pool, id, n, now));
        }
        return Pass;
      }
      var w := PlaceOf(pool, id, pool.rows[id].workspace);
      if !w.Subvol? {
        return Fail(NotFound);
      }
      SnapSteps(pool, id, n, w.tree, now);
      :- Commit(Taken(pool, id, n, w.tree));
      SnapSteps(pool, id, n, w.tree, now);
      KeepsLostTrans(p0, pool, WithSnapRow(pool, id, n, now));
      :- Commit(WithSnapRow(pool, id, n, now));
      r := Pass;
    }

    /** Snapshot. */
    method Snapshot(id: string, n: string, now: int, full: bool) returns (r: Outcome)
      requires Inv(pool)
      modifies this
      ensures Inv(pool) && KeepsLost(old(pool), pool) && (r == Fail(Stopped) ==> Spent())
      ensures if !ValidSnapID(n) || !ValidEnvID(id) then r == Fail(InvalidID) && pool == old(pool)
        else if id !in old(pool).rows then r == Fail(NotFound) && pool == old(pool)
        else if full then r == Fail(PoolFull) && pool == old(pool)
        else Takes(old(pool), pool, id, n, now, r)
    {
      hide Reconciled, ValidSnapID;
      if !ValidSnapID(n) || !ValidEnvID(id) {
        return Fail(InvalidID);
      }
      if id !in pool.rows {
        return Fail(NotFound);
      }
      if full {
        return Fail(PoolFull);
      }
      r := TakeSnapshot(id, n, now);
    }

    /** Restore. pre names the snapshot that keeps the workspace it replaces;
        two restores never share one. */
    method Restore(id: string, snap: string, now: int, pre: string) returns (r: Outcome)
      requires Inv(pool)
      requires ValidSnapID(pre) && IsPreRestore(pre)
      requires id in pool.rows ==> pre !in pool.dirs[id].snaps.value && pre !in pool.rows[id].snaps
      modifies this
      ensures Inv(pool) && KeepsLost(old(pool), pool)
      ensures !ValidSnapID(snap) || !ValidEnvID(id) ==> r == Fail(InvalidID) && pool == old(pool)
      ensures ValidSnapID(snap) && ValidEnvID(id) && (id !in old(pool).rows || snap !in old(pool).rows[id].snaps) ==>
        r == Fail(NotFound) && pool == old(pool)
      ensures CanRestore(old(pool), id, snap) ==>
        var p := old(pool);
        && Restoring(p, pool, id, snap, pre, now)
        && (r.Fail? ==> r == Fail(Stopped) && Spent())
        && (r.Pass? ==> Restored(p, pool, id, snap, pre, now))
    {
      hide Reconciled, KeepsLost, ValidSnapID, IsPreRestore, Expired;
      KeepsLostRefl(pool);
      if !ValidSnapID(snap) || !ValidEnvID(id) {
        return Fail(InvalidID);
      }
      if id !in pool.rows || snap !in pool.rows[id].snaps {
        return Fail(NotFound);
      }
      r := PrunePreRestores(id, snap, now);
      RestPrune(old(pool), pool, id, snap, pre, now);
      if r.Pass? {
        PruneLeavesNone(pool.rows[id], snap, now);
        r := RestoreCopy(id, snap, now, pre, old(pool));
      }
    }

    /** A copy of the snapshot is made at live.new, then the rest. */
    method RestoreCopy(id: string, snap: string, now: int, pre: string, ghost p0: Pool) returns (r: Outcome)
      requires RestPhase(p0, pool, id, snap, pre, now) && id in pool.rows && ValidSnapID(pre)
      requires pre !in pool.dirs[id].snaps.value && pre !in pool.rows[id].snaps && pre != snap
      requires NoneSpent(pool.rows[id], snap, now)
      requires PlaceOf(pool, id, pool.rows[id].workspace) == PlaceOf(p0, id, p0.rows[id].workspace)
      modifies this
      ensures RestPhase(p0, pool, id, snap, pre, now)
      ensures CanRestore(p0, id, snap) && r.Fail? ==> r == Fail(Stopped) && Spent()
      ensures CanRestore(p0, id, snap) && r.Pass? ==> Restored(p0, pool, id, snap, pre, now)
    {
      hide Reconciled, KeepsLost, ValidSnapID;
      // Nothing is lost with what is at live.new: an unfinished copy, or a
      // workspace that its pre-restore snapshot has as well.
      RestLiveNew(p0, pool, Missing, id, snap, pre, now);
      if pool.dirs[id].liveNew.Subvol? {
        :- Commit(WithDir(pool, id, pool.dirs[id].(liveNew := Missing)));
      }
      if !(snap in pool.dirs[id].snaps.value && pool.dirs[id].snaps.value[snap].Subvol?) {
        return Fail(NotFound);
      }
      var copy := Subvol(pool.dirs[id].snaps.value[snap].tree);
      RestLiveNew(p0, pool, copy, id, snap, pre, now);
      :- Commit(WithDir(pool, id, pool.dirs[id].(liveNew := copy)));
      r := RestoreKeep(id, snap, now, pre, p0);
    }

    /** The pre-restore snapshot, and then the rest. */
    method RestoreKeep(id: string, snap: string, now: int, pre: string, ghost p0: Pool) returns (r: Outcome)
      requires RestPhase(p0, pool, id, snap, pre, now) && id in pool.rows && ValidSnapID(pre)
      requires pre !in pool.dirs[id].snaps.value && pre !in pool.rows[id].snaps && pre != snap
      requires NoneSpent(pool.rows[id], snap, now)
      requires snap in pool.dirs[id].snaps.value && pool.dirs[id].liveNew == pool.dirs[id].snaps.value[snap] &&
        pool.dirs[id].liveNew.Subvol?
      requires PlaceOf(pool, id, pool.rows[id].workspace) == PlaceOf(p0, id, p0.rows[id].workspace)
      modifies this
      ensures RestPhase(p0, pool, id, snap, pre, now)
      ensures CanRestore(p0, id, snap) && r.Fail? ==> r == Fail(Stopped) && Spent()
      ensures CanRestore(p0, id, snap) && r.Pass? ==> Restored(p0, pool, id, snap, pre, now)
    {
      hide Reconciled, KeepsLost, ValidSnapID, Restoring, NoneSpent;
      NoneSpentMore(pool.rows[id], pre, snap, now);
      ghost var w := PlaceOf(pool, id, pool.rows[id].workspace);
      if w.Subvol? {
        RestTaken(p0, pool, id, snap, pre, now);
        RestRow(p0, Taken(pool, id, pre, w.tree), id, snap, pre, now);
      }
      r := TakeSnapshot(id, pre, now);
      if r.Fail? { return; }
      r := RestoreSwap(id, snap, now, pre, p0);
    }

    /** The swap is one atomic step; then the old workspace goes from live.new. */
    method RestoreSwap(id: string, snap: string, now: int, pre: string, ghost p0: Pool) returns (r: Outcome)
      requires RestPhase(p0, pool, id, snap, pre, now) && id in pool.rows && id in p0.rows && id in p0.dirs
      requires snap in pool.dirs[id].snaps.value && pool.dirs[id].liveNew == pool.dirs[id].snaps.value[snap] &&
        pool.dirs[id].liveNew.Subvol?
      requires PlaceOf(pool, id, pool.rows[id].workspace) == PlaceOf(p0, id, p0.rows[id].workspace)
      requires PlaceOf(pool, id, pool.rows[id].workspace).Subvol?
      requires KeptAs(pool, id, pre, PlaceOf(p0, id, p0.rows[id].workspace)) && pool.rows[id].snaps[pre] == now
      requires NoneSpent(pool.rows[id], snap, now)
      modifies this
      ensures RestPhase(p0, pool, id, snap, pre, now)
      ensures r.Fail? ==> r == Fail(Stopped) && Spent()
      ensures CanRestore(p0, id, snap) && r.Pass? ==> Restored(p0, pool, id, snap, pre, now)
    {
      hide Reconciled, KeepsLost;
      RestSwap(p0, pool, id, snap, pre, now);
      :- Commit(Swapped(pool, id));
      RestLiveNew(p0, pool, Missing, id, snap, pre, now);
      :- Commit(WithDir(pool, id, pool.dirs[id].(liveNew := Missing)));
      r := Pass;
    }

    // ------------------------------------------------ recover.go, continued

    /** Reconcile's part for an indexed environment. */
    method SettleEnv(id: string, now: int) returns (r: Outcome)
      requires Inv(pool) && id in pool.rows
      modifies this
      ensures Inv(pool) && Resumes(old(pool), pool, now) && KeepsLost(old(pool), pool)
      ensures OnlyTouches(old(pool), pool, id, {}) && id in pool.rows
      ensures r.Pass? ==> IsSettled(pool.dirs[id], pool.rows[id], now)
      ensures r.Fail? ==> r == Fail(Stopped) && Spent()
    {
      hide Resumes, SameAfterReconcile, KeepsLost, Expired, Found, OnDisk, IsSettled, Inv;
      r := ClearRestore(id, now);
      SameResumes(old(pool), pool, now);
      if r.Fail? { return; }
      ghost var p1 := pool;
      r := ReconcileSnapshots(id, now);
      KeepsLostTrans(old(pool), p1, pool);
      ResumesTrans(old(pool), p1, pool, now);
      if r.Fail? { return; }
      ghost var p2 := pool;
      r := EnsureLive(id, now);
      KeepsLostTrans(old(pool), p2, pool);
      SameResumes(p2, pool, now);
      ResumesTrans(old(pool), p2, pool, now);
      if r.Fail? { return; }
      ghost var p3 := pool;
      r := PrunePreRestores(id, "", now);
      KeepsLostTrans(old(pool), p3, pool);
      SameResumes(p3, pool, now);
      ResumesTrans(old(pool), p3, pool, now);
      if r.Pass? {
        PrunedIsSettled(p3, pool, id, now);
      }
    }

    /** A golden build's BuildSource that stopped left no live/: it is made
        afresh. */
    method EnsureLive(id: string, ghost now: int) returns (r: Outcome)
      requires Inv(pool) && id in pool.rows
      modifies this
      ensures SameAfterReconcile(old(pool), pool, now) && KeepsLost(old(pool), pool)
      ensures OnlyDir(old(pool), pool, id) && id in pool.dirs
      ensures pool.dirs[id] == old(pool).dirs[id].(live := pool.dirs[id].live)
      ensures r.Pass? ==> pool.rows[id].workspace.Own? ==> pool.dirs[id].live.Subvol?
      ensures r.Fail? ==> r == Fail(Stopped) && Spent()
    {
      hide Reconciled;
      if pool.rows[id].workspace.Own? && pool.dirs[id].live.Missing? {
        var d := pool.dirs[id].(live := Subvol(EMPTY));
        SettleDirStep(pool, id, d, now);
        :- Commit(WithDir(pool, id, d));
      }
      r := Pass;
    }

    /** Removes what a restore, an adopt or a marker left. */
    method ClearRestore(id: string, ghost now: int) returns (r: Outcome)
      requires Inv(pool) && id in pool.rows
      modifies this
      ensures Tidies(old(pool), pool, id, now) && id in pool.dirs
      ensures r.Pass? ==>
        pool.dirs[id].liveNew.Missing? && pool.dirs[id].adoptNew.Missing? && pool.dirs[id].marker.Unmarked?
      ensures r.Fail? ==> r == Fail(Stopped) && Spent()
    {
      assert id in pool.dirs;
      hide Reconciled, KeepsLost, Inv, Tidies;
      TidiesNothing(pool, id, now);
      ghost var p0 := pool;
      if pool.dirs[id].liveNew.Subvol? {
        :- Tidy(id, pool.dirs[id].(liveNew := Missing), p0, now);
      }
      if pool.dirs[id].adoptNew.Subvol? {
        :- Tidy(id, pool.dirs[id].(adoptNew := Missing), p0, now);
      }
      if !pool.dirs[id].adoptNew.Missing? {
        :- Tidy(id, pool.dirs[id].(adoptNew := Missing), p0, now);
      }
      if pool.dirs[id].marker.Marked? {
        :- Tidy(id, pool.dirs[id].(marker := Unmarked), p0, now);
      }
      r := Pass;
    }

    method Tidy(id: string, d: EnvDir, ghost p0: Pool, ghost now: int) returns (r: Outcome)
      requires Inv(pool) && Tidies(p0, pool, id, now) && id in pool.rows && id in pool.dirs
      requires Unsettled(pool.dirs[id], d, pool.rows[id])
      modifies this
      ensures Inv(pool) && Tidies(p0, pool, id, now) && id in pool.rows && id in pool.dirs
      ensures r.Pass? ==> pool.dirs[id] == d
      ensures r.Fail? ==> r == Fail(Stopped) && Spent()
    {
      hide Reconciled;
      SettleDirStep(pool, id, d, now);
      r := Commit(WithDir(pool, id, d));
    }

    /** reconcileSnapshots: the rows that are missing or stale, in one transaction. */
    method ReconcileSnapshots(id: string, now: int) returns (r: Outcome)
      requires Inv(pool) && id in pool.rows
      modifies this
      ensures Relists(old(pool), pool, id, now)
      ensures r.Pass? ==> Listed(pool, id)
      ensures r.Fail? ==> r == Fail(Stopped) && Spent()
    {
      var row := pool.rows[id];
      var snaps := pool.dirs[id].snaps.value;
      assert id in pool.dirs;
      RelistsFound(pool, id, now);
      hide Relists, Listed, Inv, OnDisk, Found;
      RowsFound(snaps, row.snaps, now);
      var missing, stale := Differences(snaps, row.snaps);
      if missing == {} && stale == {} {
        return Pass;
      }
      var rows := (row.snaps + map n | n in missing :: now) - stale;
      :- Commit(WithRow(pool, id, row.(snaps := rows)));
      r := Pass;
    }

    /** Reconcile's part for one directory. */
    method ReconcileOne(id: string, now: int) returns (r: Outcome, isLost: bool)
      requires Inv(pool)
      modifies this
      ensures Inv(pool) && Resumes(old(pool), pool, now) && KeepsLost(old(pool), pool)
      ensures OnlyTouches(old(pool), pool, id, Named(old(pool), id))
      ensures r.Fail? ==> r == Fail(Stopped) && Spent()
      ensures r.Pass? ==> !Garbage(pool, id) && isLost == IsLost(old(pool), id)
      ensures r.Pass? && id in pool.rows ==> id in pool.dirs && IsSettled(pool.dirs[id], pool.rows[id], now)
    {
      assert id in pool.rows ==> ValidEnvID(id) && id in pool.dirs;
      hide Resumes, SameAfterReconcile, KeepsLost, IsSettled, Inv, ValidEnvID, HoldsData;
      KeepsLostRefl(pool);
      ResumesRefl(pool, now);
      isLost := false;
      if !ValidEnvID(id) {
        return Pass, true;
      }
      if id in pool.rows {
        r := SettleEnv(id, now);
        RowStays(old(pool), pool, id);
      } else {
        r := ClearLeftovers(id, now);
        SameResumes(old(pool), pool, now);
        if r == Fail(Unindexed) {
          return Pass, true;
        }
      }
    }

    /** Reconcile. Completed, it leaves exactly Reconciled's pool; stopped
        anywhere, it Resumes: one at any later time makes of it what that
        would have made of the pool before, but for the times of snapshots
        found without a row. */
    method Reconcile(now: int) returns (r: Outcome, lost: set<string>)
      requires Inv(pool)
      modifies this
      ensures Inv(pool) && Resumes(old(pool), pool, now) && KeepsLost(old(pool), pool)
      ensures r.Pass? ==> pool == Reconciled(old(pool), now) && Reconciles(old(pool), pool, now)
      ensures r.Pass? ==> lost == set id | id in old(pool).dirs && IsLost(old(pool), id)
      ensures r.Pass? ==> forall id :: id in lost <==> id in old(pool).dirs && (!ValidEnvID(id) || Stray(old(pool), id))
      ensures KeepsStrays(old(pool), pool)
      ensures r.Fail? ==> r == Fail(Stopped) && Spent()
    {
      r, lost := ReconcileAll(now);
      StraysKept(old(pool), pool);
      ReconciledFields(old(pool), now);
      hide Reconciled, Reconciles, KeepsLost, KeepsStrays, Inv, Stray, Lost, ValidEnvID, Resumes;
      forall id ensures IsLost(old(pool), id) <==> !ValidEnvID(id) || Stray(old(pool), id) {
        LostIsStray(old(pool), id);
      }
    }

    /** Its loop. */
    method ReconcileAll(now: int) returns (r: Outcome, lost: set<string>)
      requires Inv(pool)
      modifies this
      ensures Inv(pool) && Resumes(old(pool), pool, now) && KeepsLost(old(pool), pool)
      ensures r.Pass? ==> pool == Reconciled(old(pool), now)
      ensures r.Pass? ==> lost == set id | id in old(pool).dirs && IsLost(old(pool), id)
      ensures r.Fail? ==> r == Fail(Stopped) && Spent()
    {
      ThroughNothing(pool, now);
      hide Resumes, Reconciled, KeepsLost, Inv, OnlyTouches, Garbage, Named, Through, IsLost;
      ghost var p0 := pool;
      KeepsLostRefl(pool);
      ResumesRefl(pool, now);
      lost := {};
      var todo := pool.dirs.Keys;
      while todo != {}
        invariant Inv(pool) && Resumes(p0, pool, now) && KeepsLost(p0, pool)
        invariant Through(pool, todo, now) && todo <= p0.dirs.Keys
        invariant forall id :: id in lost <==> id in p0.dirs && id !in todo && IsLost(p0, id)
      {
        var id :| id in todo;
        assert (todo - {id}) + {id} == todo;
        todo := todo - {id};
        ghost var p1 := pool;
        var isLost;
        r, isLost := ReconcileOne(id, now);
        KeepsLostTrans(p0, p1, pool);
        ResumesTrans(p0, p1, pool, now);
        if r.Fail? { return; }
        StaysLost(p0, p1, id);
        ThroughMore(p1, pool, todo, id, Named(p1, id), now);
        if isLost {
          lost := lost + {id};
        }
      }
      r := Pass;
      assert lost == set id | id in p0.dirs && IsLost(p0, id);
      ThroughAll(p0, pool, now);
    }
  }

  /** The index has lost the directory, or its name is no environment's. */
  predicate IsLost(p: Pool, id: string) {
    !ValidEnvID(id) || Lost(p, id)
  }

  /** From p to q, a Reconcile's part in environment id's snapshot rows. */
  ghost predicate Relists(p: Pool, q: Pool, id: string, now: int) {
    && Inv(q) && Resumes(p, q, now) && KeepsLost(p, q)
    && q.dirs == p.dirs && q.work == p.work && q.rows - {id} == p.rows - {id}
    && id in p.rows && id in q.rows && q.rows[id].workspace == p.rows[id].workspace
  }

  lemma RelistsFound(p: Pool, id: string, now: int)
    requires Inv(p) && id in p.rows
    ensures Relists(p, p, id, now)
    ensures var q := WithRow(p, id, p.rows[id].(snaps := Found(p.dirs[id].snaps.value, p.rows[id].snaps, now)));
      Relists(p, q, id, now) && Listed(q, id)
  {
    hide Resumes, KeepsLost, Found;
    KeepsLostRefl(p);
    ResumesRefl(p, now);
    FoundStep(p, id, now);
    InvOfResumes(p, WithRow(p, id, p.rows[id].(snaps := Found(p.dirs[id].snaps.value, p.rows[id].snaps, now))), now);
  }

  lemma InvOfResumes(p: Pool, q: Pool, now: int)
    requires Resumes(p, q, now)
    ensures Inv(q)
  {
  }

  /** Reconcile is through with every directory but those. */
  ghost predicate Through(p: Pool, todo: set<string>, now: int) {
    forall id | id !in todo ::
      !Garbage(p, id) && (id in p.rows ==> id in p.dirs && IsSettled(p.dirs[id], p.rows[id], now))
  }

  lemma ThroughNothing(p: Pool, now: int)
    requires Inv(p)
    ensures Through(p, p.dirs.Keys, now)
  {
  }

  lemma ThroughMore(p: Pool, q: Pool, todo: set<string>, id: string, paths: set<string>, now: int)
    requires Through(p, todo + {id}, now) && OnlyTouches(p, q, id, paths) && !Garbage(q, id)
    requires id in q.rows ==> id in q.dirs && IsSettled(q.dirs[id], q.rows[id], now)
    ensures Through(q, todo, now)
  {
    hide IsSettled, Garbage, OnlyTouches;
    TouchesFrame(p, q, id, paths);
  }

  lemma ThroughAll(p: Pool, q: Pool, now: int)
    requires Resumes(p, q, now) && Through(q, {}, now)
    ensures q == Reconciled(p, now)
  {
    hide IsSettled, Garbage, Resumes, Reconciled;
    AllReconciled(p, q, now);
  }

  lemma StaysLost(p: Pool, q: Pool, id: string)
    requires KeepsLost(p, q)
    ensures IsLost(p, id) <==> IsLost(q, id)
  {
    hide KeepsLost, Lost;
    LostStays(p, q, id);
  }

  lemma RowsFound(snaps: map<string, Place>, rows: map<string, int>, now: int)
    ensures var missing, stale := OnDisk(snaps) - rows.Keys, rows.Keys - OnDisk(snaps);
      && (rows + map n | n in missing :: now) - stale == Found(snaps, rows, now)
      && (missing == {} && stale == {} ==> rows.Keys == OnDisk(snaps))
  {
    hide OnDisk;
    var missing, stale := OnDisk(snaps) - rows.Keys, rows.Keys - OnDisk(snaps);
    if missing == {} && stale == {} {
      assert forall n :: n in rows.Keys - OnDisk(snaps) <==> n in rows.Keys && n !in OnDisk(snaps);
      assert forall n :: n in OnDisk(snaps) - rows.Keys <==> n !in rows.Keys && n in OnDisk(snaps);
    }
  }

  /** What reconcileSnapshots finds: the snapshots on disk without a row, and
      the rows without a snapshot on disk. */
  method Differences(snaps: map<string, Place>, rows: map<string, int>)
    returns (missing: set<string>, stale: set<string>)
    ensures missing == OnDisk(snaps) - rows.Keys
    ensures stale == rows.Keys - OnDisk(snaps)
  {
    var indexed := rows.Keys;
    missing := {};
    var todo := snaps.Keys;
    while todo != {}
      invariant todo <= snaps.Keys
      invariant forall n :: n in indexed <==> n in rows && !(n in OnDisk(snaps) && n !in todo)
      invariant forall n :: n in missing <==> n in OnDisk(snaps) && n !in todo && n !in rows
    {
      var n :| n in todo;
      todo := todo - {n};
      if ValidSnapID(n) && snaps[n].Subvol? {
        if n in indexed {
          indexed := indexed - {n};
        } else {
          missing := missing + {n};
        }
      }
    }
    stale := indexed;
  }
}
