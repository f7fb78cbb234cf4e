/** Restore (internal/backup/state.go): the meaning of a manifest. */
module Restore {
  import opened Trees
  import opened Options
  import opened Backup
  import opened Backer

  /** A restored workspace. btrfs makes a snapshot inside a folder that is
      already there. */
  datatype Work = Work(tree: Tree, inside: map<Name, Tree>)

  type Works = map<Path, Work>

  /** What should stand at environment id's workspace. */
  function Right(b: Bucket, m: Manifest, id: string): Work
    requires id in m.envs
  {
    Work(Contents(b, m.envs[id].chain), map[])
  }

  /** Every environment's workspace is as it was sent. */
  ghost predicate AllRight(b: Bucket, m: Manifest, works: Works) {
    forall id | id in m.envs :: m.envs[id].workspace in works && works[m.envs[id].workspace] == Right(b, m, id)
  }

  /** No two of the environments were backed up at the same path. */
  predicate Distinct(m: Manifest, ids: set<string>)
    requires ids <= m.envs.Keys
  {
    forall a, b | a in ids && b in ids && m.envs[a].workspace == m.envs[b].workspace :: a == b
  }

  /** A restored path's first environment, and whether there was another. */
  ghost predicate Placed(b: Bucket, m: Manifest, done: set<string>, works: Works, w: Path, id: string)
    requires done <= m.envs.Keys && w in works
  {
    && id in done && m.envs[id].workspace == w && works[w].tree == Contents(b, m.envs[id].chain)
    && (works[w].inside == map[] <==> forall a | a in done && m.envs[a].workspace == w :: a == id)
  }

  ghost predicate AllPlaced(b: Bucket, m: Manifest, done: set<string>, works: Works)
    requires done <= m.envs.Keys
  {
    && (forall id | id in done :: m.envs[id].workspace in works)
    && (forall w | w in works :: exists id :: Placed(b, m, done, works, w, id))
  }

  function Laid(works: Works, w: Path, name: Name, tree: Tree): Works {
    if w in works then works[w := works[w].(inside := works[w].inside[name := tree])]
    else works[w := Work(tree, map[])]
  }

  lemma PlacedMore(b: Bucket, m: Manifest, done: set<string>, works: Works, id: string)
    requires done <= m.envs.Keys && id in m.envs && id !in done && AllPlaced(b, m, done, works) &&
      m.envs[id].chain != []
    ensures AllPlaced(b, m, done + {id},
      Laid(works, m.envs[id].workspace, Tip(m.envs[id].chain), Contents(b, m.envs[id].chain)))
  {
    hide Contents;
    var at := m.envs[id].workspace;
    var next := Laid(works, at, Tip(m.envs[id].chain), Contents(b, m.envs[id].chain));
    forall w | w in next ensures exists a :: Placed(b, m, done + {id}, next, w, a) {
      if w !in works {
        assert Placed(b, m, done + {id}, next, w, id);
      } else {
        var a :| Placed(b, m, done, works, w, a);
        assert w == at ==> Tip(m.envs[id].chain) in next[w].inside;
        assert Placed(b, m, done + {id}, next, w, a);
      }
    }
  }

  /** Restoring is right exactly when no two environments of the manifest
      share a workspace. */
  lemma RightIffDistinct(b: Bucket, m: Manifest, works: Works)
    requires AllPlaced(b, m, m.envs.Keys, works)
    ensures AllRight(b, m, works) <==> Distinct(m, m.envs.Keys)
  {
    hide Contents;
    if Distinct(m, m.envs.Keys) {
      forall id | id in m.envs ensures works[m.envs[id].workspace] == Right(b, m, id) {
        var a :| Placed(b, m, m.envs.Keys, works, m.envs[id].workspace, a);
        assert a == id;
      }
    }
    if AllRight(b, m, works) {
      forall x, y | x in m.envs && y in m.envs && m.envs[x].workspace == m.envs[y].workspace ensures x == y {
        var a :| Placed(b, m, m.envs.Keys, works, m.envs[x].workspace, a);
        assert works[m.envs[x].workspace].inside == map[];
      }
    }
  }

  /** Receives a chain into an empty folder. */
  method ReceiveChain(b: Bucket, chain: seq<Send>) returns (dir: Option<Folder>)
    ensures dir == ChainReceived(b, chain)
  {
    dir := Some(map[]);
    assert chain[..0] == [];
    for i := 0 to |chain|
      invariant dir.Some? && dir == ChainReceived(b, chain[..i])
    {
      var next := Fetched(b, dir.value, chain[i].key);
      assert chain[..i+1][..i] == chain[..i];
      if next.None? {
        StaysBroken(b, chain, i + 1);
        return None;
      }
      dir := next;
    }
    assert chain[..|chain|] == chain;
  }

  lemma {:induction false} StaysBroken(b: Bucket, chain: seq<Send>, i: nat)
    requires i <= |chain| && ChainReceived(b, chain[..i]).None?
    ensures ChainReceived(b, chain).None?
    decreases |chain|
  {
    if i == |chain| {
      assert chain[..i] == chain;
    } else {
      assert chain[..|chain|-1][..i] == chain[..i];
      StaysBroken(b, chain[..|chain|-1], i);
    }
  }

  /** Restore from whatever a backup, finished or stopped anywhere, left in the
      bucket. It refuses a pool with environments and a bucket in which no
      backup has finished, and otherwise succeeds. */
  method RestoreAll(b: Bucket, occupied: bool, ghost p: Host) returns (ok: bool, works: Works)
    requires BucketOk(b, p)
    ensures ok <==> !occupied && Stored(b).state.Some?
    ensures ok ==> (AllRight(b, Stored(b), works) <==> Distinct(Stored(b), Stored(b).envs.Keys))
  {
    hide Contents, Holds, Placed, ChainReceived;
    works := map[];
    if occupied {
      return false, works;
    }
    var m := Stored(b);
    if m.state.None? {
      return false, works;
    }
    var left := m.envs.Keys;
    assert AllPlaced(b, m, m.envs.Keys - left, works);
    while left != {}
      invariant left <= m.envs.Keys && AllPlaced(b, m, m.envs.Keys - left, works)
      decreases left
    {
      var id :| id in left;
      var eb := m.envs[id];
      assert EnvOk(b, p, id, eb);
      var dir := ReceiveChain(b, eb.chain);
      TipReceived(b, p, id, eb);
      if dir.None? || Tip(eb.chain) !in dir.value || !IsLocal(eb.workspace) {
        assert false;
        return false, works;
      }
      PlacedMore(b, m, m.envs.Keys - left, works, id);
      assert m.envs.Keys - left + {id} == m.envs.Keys - (left - {id});
      works := Laid(works, eb.workspace, Tip(eb.chain), dir.value[Tip(eb.chain)]);
      left := left - {id};
    }
    assert m.envs.Keys - left == m.envs.Keys;
    RightIffDistinct(b, m, works);
    ok := true;
  }

  lemma TipReceived(b: Bucket, p: Host, id: string, eb: EnvBackup)
    requires EnvOk(b, p, id, eb)
    ensures ChainReceived(b, eb.chain).Some? && Tip(eb.chain) in ChainReceived(b, eb.chain).value
    ensures Contents(b, eb.chain) == ChainReceived(b, eb.chain).value[Tip(eb.chain)]
  {
    assert eb.chain[|eb.chain|-1].snapshot in ChainNames(eb.chain);
  }

  /** A backup that finished left no two environments at one path, so its
      restore is right. */
  lemma FinishedIsDistinct(home: string -> Path, m: Manifest, listed: Host)
    requires AtHome(home, m) && m.envs.Keys == Backed(listed) && Apart(home, listed.envs.Keys)
    ensures Distinct(m, m.envs.Keys)
  {
  }

  /** A backup that doesn't fail, restored: every environment there was when it
      listed them has its workspace back, as it was at a moment of the run. */
  method OnceThenRestore(b: Backer) returns (ok: bool, works: Works, ghost listed: nat)
    requires b.Valid() && AtHome(b.home, Stored(b.bucket))
    modifies b
    ensures b.Valid() && AtHome(b.home, Stored(b.bucket))
    ensures ok ==> |old(b.log)| <= listed < |b.log|
    ensures ok ==> forall id | id in Backed(b.log[listed]) ::
      && b.home(id) in works && works[b.home(id)].inside == map[]
      && Seen(b.log, |old(b.log)|, id, works[b.home(id)].tree)
    ensures ok ==> forall id | id in b.log[listed].envs && !(|id| >= 7 && id[..7] == "golden-") ::
      && b.home(id) in works && works[b.home(id)].inside == map[]
      && Seen(b.log, |old(b.log)|, id, works[b.home(id)].tree)
  {
    hide BucketOk, Seen, Contents, Backed, Kept, Safe, Saved;
    works := map[];
    ok, listed := b.Once();
    if ok {
      BackedAre(b.log[listed]);
      FinishedIsDistinct(b.home, Stored(b.bucket), b.log[listed]);
      ok, works := RestoreAll(b.bucket, false, b.host);
    }
  }

  /** A backup that stopped may not have. Let a be an environment that was
      backed up and is gone, and c one that is at its path: once the run has
      sent the environments, which goes well, and stops there, the manifest in
      the bucket has both, and a restore succeeds and isn't right. */
  method StoppedShares(b: Backer, a: string, c: string) returns (works: Works)
    requires b.Valid() && AtHome(b.home, Stored(b.bucket)) && Stored(b.bucket).state.Some?
    requires a in Stored(b.bucket).envs && c in Backed(b.host) && a != c && b.home(a) == b.home(c)
    requires b.Calm() && AllLocal(b.home, Backed(b.host))
    modifies b
    ensures b.Valid() && {a, c} <= Stored(b.bucket).envs.Keys && Stored(b.bucket).state.Some?
    ensures !AllRight(b.bucket, Stored(b.bucket), works)
  {
    hide Contents, Seen, ManifestOk, BucketOk, Recent, AllLocal, Backed, AllRight, Safe, Saved;
    var m := Stored(b.bucket);
    KeysInOrder(b.bucket, b.host);
    BackedThere(b.host);
    var ok, all;
    SafeAtFirst(b.bucket, b.log, |b.log|);
    ok, all, m := b.SendAll(Backed(b.host), m, |b.log|, Saved(b.bucket), m.envs.Keys);
    ok, works := RestoreAll(b.bucket, false, b.host);
    SharesPath(b.home, Stored(b.bucket), a, c);
  }

  lemma SharesPath(home: string -> Path, m: Manifest, a: string, c: string)
    requires AtHome(home, m) && a in m.envs && c in m.envs && a != c && home(a) == home(c)
    ensures !Distinct(m, m.envs.Keys)
  {
    assert m.envs[a].workspace == m.envs[c].workspace;
  }
}
