/** What backups promise (internal/backup/backup.go, state.go): the manifest in
    the bucket always names chains of sends that receive to what was last sent. */
module Backup {
  import opened Trees
  import opened Options

  /** A backup's snapshot is named after the moment it was taken at. */
  datatype Name = Mine(at: nat) | Other(name: string)

  /** Under the node's prefix: manifest.json, state/<time>, envs/<id>/<name>. */
  datatype Key = ManifestKey | StateKey(at: nat) | SendKey(id: string, name: Name)

  /** btrfs send: a whole subvolume, or what changed since its parent. */
  datatype Stream =
    | Full(name: Name, tree: Tree)
    | Since(name: Name, parent: Name, changed: Tree, removed: set<Path>)

  datatype Send = Send(snapshot: Name, key: Key)

  datatype EnvBackup = EnvBackup(workspace: Path, generation: nat, chain: seq<Send>)

  datatype Manifest = Manifest(state: Option<Key>, envs: map<string, EnvBackup>)

  /** Broken is what a failed upload may leave. */
  datatype Object = Listing(m: Manifest) | Sent(stream: Stream) | State | Broken

  type Bucket = map<Key, Object>

  const MAX_CHAIN := 7 * 24

  const NO_BACKUP := Manifest(None, map[])

  // ------------------------------------------------------------ send, receive

  function Changed(parent: Tree, tree: Tree): Tree {
    map p | p in tree && !(p in parent && parent[p] == tree[p]) :: tree[p]
  }

  function Removed(parent: Tree, tree: Tree): set<Path> {
    parent.Keys - tree.Keys
  }

  function Applied(parent: Tree, changed: Tree, removed: set<Path>): Tree {
    (parent - removed) + changed
  }

  lemma AppliedIsSent(parent: Tree, tree: Tree)
    ensures Applied(parent, Changed(parent, tree), Removed(parent, tree)) == tree
  {
  }

  type Folder = map<Name, Tree>

  /** btrfs receive into a folder: the name must be free and the parent there. */
  function Received(dir: Folder, s: Stream): Option<Folder> {
    if s.name in dir then None
    else if s.Full? then Some(dir[s.name := s.tree])
    else if s.parent !in dir then None
    else Some(dir[s.name := Applied(dir[s.parent], s.changed, s.removed)])
  }

  /** receive of one object. */
  function Fetched(b: Bucket, dir: Folder, key: Key): Option<Folder> {
    if key in b && b[key].Sent? then Received(dir, b[key].stream) else None
  }

  /** A chain received in order, into an empty folder. */
  function ChainReceived(b: Bucket, chain: seq<Send>): Option<Folder> {
    if chain == [] then Some(map[])
    else
      var dir := ChainReceived(b, chain[..|chain|-1]);
      if dir.None? then None else Fetched(b, dir.value, chain[|chain|-1].key)
  }

  function Tip(chain: seq<Send>): Name
    requires chain != []
  {
    chain[|chain|-1].snapshot
  }

  function ChainNames(chain: seq<Send>): set<Name> {
    set i | 0 <= i < |chain| :: chain[i].snapshot
  }

  /** The chain can be received, and its objects are older than now. */
  ghost predicate ChainOk(b: Bucket, now: nat, id: string, chain: seq<Send>) {
    && chain != [] && |chain| <= MAX_CHAIN
    && ChainReceived(b, chain).Some? && ChainReceived(b, chain).value.Keys == ChainNames(chain)
    && (forall i | 0 <= i < |chain| ::
          chain[i].key == SendKey(id, chain[i].snapshot) && chain[i].snapshot.Mine? && chain[i].snapshot.at < now)
  }

  /** What a restore of the chain gives. */
  function Contents(b: Bucket, chain: seq<Send>): Tree {
    var dir := ChainReceived(b, chain);
    if chain != [] && dir.Some? && Tip(chain) in dir.value then dir.value[Tip(chain)] else EMPTY
  }

  lemma {:induction false} ReceivedFrame(b: Bucket, c: Bucket, chain: seq<Send>)
    requires forall i | 0 <= i < |chain| ::
      chain[i].key in b ==> chain[i].key in c && c[chain[i].key] == b[chain[i].key]
    ensures ChainReceived(b, chain).Some? ==> ChainReceived(c, chain) == ChainReceived(b, chain)
  {
    if chain != [] {
      ReceivedFrame(b, c, chain[..|chain|-1]);
    }
  }

  /** A full send starts a chain. */
  lemma FullStarts(b: Bucket, now: nat, id: string, name: Name, tree: Tree)
    requires name.Mine? && name.at < now
    requires SendKey(id, name) in b && b[SendKey(id, name)] == Sent(Full(name, tree))
    ensures var chain := [Send(name, SendKey(id, name))];
      ChainOk(b, now, id, chain) && Contents(b, chain) == tree
  {
    var chain := [Send(name, SendKey(id, name))];
    assert chain[..0] == [];
    assert ChainReceived(b, chain) == Some(map[name := tree]);
    assert ChainNames(chain) == {name} by { assert chain[0].snapshot in ChainNames(chain); }
  }

  /** An incremental send from the chain's last snapshot extends it. */
  lemma SinceExtends(b: Bucket, c: Bucket, now: nat, id: string, chain: seq<Send>, name: Name, tree: Tree)
    requires ChainOk(b, now, id, chain) && |chain| < MAX_CHAIN && name.Mine? && name.at >= now
    requires OnlyAdds(b, c)
    requires var key := SendKey(id, name);
      key in c && c[key] ==
        Sent(Since(name, Tip(chain), Changed(Contents(b, chain), tree), Removed(Contents(b, chain), tree)))
    ensures var next := chain + [Send(name, SendKey(id, name))];
      ChainOk(c, name.at + 1, id, next) && Contents(c, next) == tree
  {
    var key := SendKey(id, name);
    var next := chain + [Send(name, key)];
    assert next[..|next|-1] == chain;
    ReceivedFrame(b, c, chain);
    var dir := ChainReceived(b, chain).value;
    assert name !in ChainNames(chain);
    assert Tip(chain) in ChainNames(chain) by { assert chain[|chain|-1].snapshot in ChainNames(chain); }
    AppliedIsSent(Contents(b, chain), tree);
    assert ChainReceived(c, next) == Some(dir[name := tree]);
    NamesAppend(chain, Send(name, key));
  }

  /** A new snapshot's chain is in order, whichever way it was sent. */
  lemma ChainGrows(b: Bucket, c: Bucket, now: nat, id: string, chain: seq<Send>, parent: Option<Name>, name: Name,
    tree: Tree)
    requires OnlyAdds(b, c) && name.Mine? && name.at < now
    requires parent.Some? ==> ChainOk(b, name.at, id, chain) && |chain| < MAX_CHAIN && parent.value == Tip(chain)
    requires var key := SendKey(id, name);
      key in c && c[key] == Sent(
        if parent.None? then Full(name, tree)
        else Since(name, parent.value, Changed(Contents(b, chain), tree), Removed(Contents(b, chain), tree)))
    ensures var send := Send(name, SendKey(id, name));
      var next := if parent.Some? then chain + [send] else [send];
      ChainOk(c, now, id, next) && Contents(c, next) == tree && Tip(next) == name
  {
    hide Changed, Removed, ChainReceived, Contents;
    if parent.None? {
      FullStarts(c, now, id, name, tree);
    } else {
      SinceExtends(b, c, name.at, id, chain, name, tree);
    }
  }

  lemma NamesAppend(chain: seq<Send>, s: Send)
    ensures ChainNames(chain + [s]) == ChainNames(chain) + {s.snapshot}
  {
    var next := chain + [s];
    assert next[|chain|] == s;
    forall n | n in ChainNames(chain) ensures n in ChainNames(next) {
      var i :| 0 <= i < |chain| && chain[i].snapshot == n;
      assert next[i].snapshot == n;
    }
  }

  // --------------------------------------------------------------- the node

  datatype Snap = Snap(tree: Tree, gen: nat)

  /** An environment: what its workspace holds, the btrfs generation of its
      last change, and its snapshots. */
  datatype Env = Env(tree: Tree, gen: nat, snaps: map<Name, Snap>)

  /** The node: its environments, the last committed btrfs transaction, the time. */
  datatype Host = Host(envs: map<string, Env>, committed: nat, clock: nat)

  /** What people, agents and the store's pruning may do to the node meanwhile:
      anything, but a change to a workspace (or a new one) carries a
      generation after the last committed one, a snapshot never changes, and
      only backups take snapshots with their prefix. */
  predicate Drifts(p: Host, q: Host) {
    && p.committed <= q.committed && p.clock <= q.clock
    && (forall id | id in q.envs ::
          q.envs[id].gen > p.committed ||
          (id in p.envs && q.envs[id].gen == p.envs[id].gen && q.envs[id].tree == p.envs[id].tree))
    && (forall id | id in q.envs ::
          forall name | name in q.envs[id].snaps && name.Mine? ::
            id in p.envs && name in p.envs[id].snaps && q.envs[id].snaps[name] == p.envs[id].snaps[name])
  }

  /** Backup snapshot name of environment id, as long as it is there, holds
      tree, and so does the workspace, as long as its generation is gen. */
  ghost predicate Holds(p: Host, id: string, name: Name, tree: Tree, gen: nat) {
    && gen <= p.committed && name.Mine? && name.at < p.clock
    && (id in p.envs && name in p.envs[id].snaps ==> p.envs[id].snaps[name] == Snap(tree, gen))
    && (id in p.envs && p.envs[id].gen == gen ==> p.envs[id].tree == tree)
  }

  predicate IsLocal(p: Path) {
    p != [] && ".." !in p
  }

  /** The workspaces of two environments never stand at the same path. */
  predicate Apart(home: string -> Path, ids: set<string>) {
    forall a, b | a in ids && b in ids && home(a) == home(b) :: a == b
  }

  ghost predicate EnvOk(b: Bucket, p: Host, id: string, eb: EnvBackup) {
    && ChainOk(b, p.clock, id, eb.chain) && IsLocal(eb.workspace)
    && Holds(p, id, Tip(eb.chain), Contents(b, eb.chain), eb.generation)
  }

  ghost predicate ManifestOk(b: Bucket, p: Host, m: Manifest) {
    && (forall id | id in m.envs :: EnvOk(b, p, id, m.envs[id]))
    && (m.state.Some? ==>
          m.state.value.StateKey? && m.state.value.at < p.clock && m.state.value in b && b[m.state.value] == State)
  }

  /** readManifest. */
  function Stored(b: Bucket): Manifest {
    if ManifestKey in b && b[ManifestKey].Listing? then b[ManifestKey].m else NO_BACKUP
  }

  /** The manifest in the bucket is whole, and what it names is there. */
  ghost predicate BucketOk(b: Bucket, p: Host) {
    && (ManifestKey in b ==> b[ManifestKey].Listing?)
    && (forall k | k in b :: IsOld(k, p.clock))
    && ManifestOk(b, p, Stored(b))
  }

  predicate IsOld(k: Key, now: nat) {
    k.ManifestKey? || (if k.StateKey? then k.at < now else k.name.Mine? && k.name.at < now)
  }

  // A step of a backup that touches no object a manifest names.

  /** No object of before is gone or changed but the manifest. */
  ghost predicate OnlyAdds(b: Bucket, c: Bucket) {
    forall k | k in b && k != ManifestKey :: k in c && c[k] == b[k]
  }

  /** What holds of the node's backup snapshots still does. */
  ghost predicate StillHolds(p: Host, q: Host) {
    && p.clock <= q.clock
    && (forall id, name, tree, gen :: Holds(p, id, name, tree, gen) ==> Holds(q, id, name, tree, gen))
  }

  lemma DriftHolds(p: Host, q: Host)
    requires Drifts(p, q)
    ensures StillHolds(p, q)
  {
  }

  lemma EnvKept(b: Bucket, c: Bucket, p: Host, q: Host, id: string, eb: EnvBackup)
    requires EnvOk(b, p, id, eb) && StillHolds(p, q)
    requires forall i | 0 <= i < |eb.chain| ::
      eb.chain[i].key in b ==> eb.chain[i].key in c && c[eb.chain[i].key] == b[eb.chain[i].key]
    ensures EnvOk(c, q, id, eb) && Contents(c, eb.chain) == Contents(b, eb.chain)
  {
    ReceivedFrame(b, c, eb.chain);
    assert Holds(p, id, Tip(eb.chain), Contents(b, eb.chain), eb.generation);
  }

  lemma ManifestKept(b: Bucket, c: Bucket, p: Host, q: Host, m: Manifest)
    requires ManifestOk(b, p, m) && OnlyAdds(b, c) && StillHolds(p, q)
    ensures ManifestOk(c, q, m)
  {
    hide ChainReceived, Contents, Holds;
    forall id | id in m.envs ensures EnvOk(c, q, id, m.envs[id]) {
      assert EnvOk(b, p, id, m.envs[id]);
      EnvKept(b, c, p, q, id, m.envs[id]);
    }
  }

  lemma BucketKept(b: Bucket, c: Bucket, p: Host, q: Host)
    requires BucketOk(b, p) && OnlyAdds(b, c) && StillHolds(p, q)
    requires forall k | k in c && k !in b :: IsOld(k, q.clock)
    requires ManifestKey in c ==> c[ManifestKey].Listing?
    requires Stored(c) == Stored(b) || ManifestOk(b, p, Stored(c))
    ensures BucketOk(c, q)
  {
    hide ManifestOk, OnlyAdds;
    ManifestKept(b, c, p, q, Stored(c));
    forall k | k in c ensures IsOld(k, q.clock) {
      assert k in b ==> IsOld(k, p.clock);
    }
  }

  /** Between two moments of a backup: no object is gone, what was known of the
      snapshots still is, and the bucket is in order. */
  ghost predicate Steps(b: Bucket, p: Host, c: Bucket, q: Host) {
    OnlyAdds(b, c) && StillHolds(p, q) && BucketOk(c, q)
  }

  lemma StepsTrans(b: Bucket, p: Host, c: Bucket, q: Host, d: Bucket, r: Host)
    requires Steps(b, p, c, q) && Steps(c, q, d, r)
    ensures Steps(b, p, d, r)
  {
    hide Holds, BucketOk;
    forall k | k in b && k != ManifestKey ensures k in d && d[k] == b[k] {
      assert k in c && c[k] == b[k];
    }
  }

  // ---------------------------------------------------------- btrfs snapshots

  /** Taking a snapshot of workspace id commits a transaction, which becomes
      the generation of both. */
  function Snapped(p: Host, id: string, name: Name): Host
    requires id in p.envs
  {
    var e := p.envs[id];
    var gen := if e.gen > p.committed then e.gen else p.committed + 1;
    p.(envs := p.envs[id := Env(e.tree, gen, e.snaps[name := Snap(e.tree, gen)])], committed := gen)
  }

  function Dropped(p: Host, id: string, name: Name): Host {
    if id in p.envs then p.(envs := p.envs[id := p.envs[id].(snaps := p.envs[id].snaps - {name})]) else p
  }

  function Later(p: Host): Host {
    p.(clock := p.clock + 1)
  }

  lemma SnappedHolds(p: Host, id: string)
    requires id in p.envs
    ensures var q := Later(Snapped(p, id, Mine(p.clock)));
      StillHolds(p, q) && Holds(q, id, Mine(p.clock), p.envs[id].tree, q.committed)
  {
  }

  lemma LaterHolds(p: Host)
    ensures StillHolds(p, Later(p))
  {
  }

  lemma DroppedHolds(p: Host, id: string, name: Name)
    ensures StillHolds(p, Dropped(p, id, name))
  {
  }

  // ------------------------------------------------------------------ sweeping

  /** The objects a manifest needs. */
  function Kept(m: Manifest): set<Key> {
    {ManifestKey} + (if m.state.Some? then {m.state.value} else {}) +
    set id, i | id in m.envs && 0 <= i < |m.envs[id].chain| :: m.envs[id].chain[i].key
  }

  /** They are the manifest, its state and the sends of its chains. */
  lemma KeptAre(m: Manifest, k: Key)
    ensures k in Kept(m) <==>
      || k == ManifestKey || m.state == Some(k)
      || exists id, i :: id in m.envs && 0 <= i < |m.envs[id].chain| && m.envs[id].chain[i].key == k
  {
  }

  lemma SweptKeeps(b: Bucket, p: Host, m: Manifest, key: Key)
    requires ManifestOk(b, p, m) && key !in Kept(m)
    ensures ManifestOk(b - {key}, p, m)
    ensures forall id | id in m.envs :: Contents(b - {key}, m.envs[id].chain) == Contents(b, m.envs[id].chain)
  {
    hide ChainReceived, Contents, Holds;
    Same(p);
    forall id | id in m.envs
      ensures EnvOk(b - {key}, p, id, m.envs[id]) &&
        Contents(b - {key}, m.envs[id].chain) == Contents(b, m.envs[id].chain)
    {
      assert EnvOk(b, p, id, m.envs[id]);
      assert forall i | 0 <= i < |m.envs[id].chain| :: m.envs[id].chain[i].key in Kept(m);
      EnvKept(b, b - {key}, p, p, id, m.envs[id]);
    }
  }

  lemma SweptBucket(b: Bucket, p: Host, key: Key)
    requires BucketOk(b, p) && key !in Kept(Stored(b))
    ensures BucketOk(b - {key}, p) && Stored(b - {key}) == Stored(b)
  {
    SweptKeeps(b, p, Stored(b), key);
  }

  lemma Same(p: Host)
    ensures StillHolds(p, p)
  {
  }

  ghost predicate AtHome(home: string -> Path, m: Manifest) {
    forall id | id in m.envs :: m.envs[id].workspace == home(id)
  }

  lemma ManifestGrows(b: Bucket, p: Host, m: Manifest, id: string, eb: EnvBackup)
    requires ManifestOk(b, p, m) && EnvOk(b, p, id, eb)
    ensures ManifestOk(b, p, m.(envs := m.envs[id := eb]))
  {
    hide EnvOk;
  }
}
