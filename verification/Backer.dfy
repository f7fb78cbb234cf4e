/** The backup of a node (internal/backup/backup.go): one call after another to
    btrfs, the store and the object store, each of which may fail, and
    between which the node changes. */
module Backer {
  import opened Trees
  import opened Options
  import opened Backup

  /** What comes of one call: how the node has changed by then, whether the
      call took effect, and whether it said so. */
  datatype Turn = Turn(after: Host, done: bool, ok: bool)

  /** Environment id's workspace held tree at some moment of the log from the given one on. */
  ghost predicate Seen(log: seq<Host>, from: nat, id: string, tree: Tree) {
    exists k | from <= k < |log| :: id in log[k].envs && log[k].envs[id].tree == tree
  }

  /** Each of the environments is in the manifest as it was at some moment. */
  ghost predicate Recent(b: Bucket, m: Manifest, log: seq<Host>, from: nat, ids: set<string>) {
    forall id | id in ids :: id in m.envs && Seen(log, from, id, Contents(b, m.envs[id].chain))
  }

  /** Each environment in the manifest restores to what it did before, or to
      what it held at some moment. */
  ghost predicate Safe(b: Bucket, m: Manifest, log: seq<Host>, from: nat, was: map<string, Tree>) {
    forall id | id in m.envs ::
      (id in was && was[id] == Contents(b, m.envs[id].chain)) || Seen(log, from, id, Contents(b, m.envs[id].chain))
  }

  /** What the manifest in the bucket restores to. */
  ghost function Saved(b: Bucket): map<string, Tree> {
    map id | id in Stored(b).envs :: Contents(b, Stored(b).envs[id].chain)
  }

  const BUILDER_PREFIX := "golden-"

  /** The environments a backup holds: all but golden builders. */
  function Backed(p: Host): set<string> {
    set id | id in p.envs && !(BUILDER_PREFIX <= id)
  }

  lemma BackedAre(p: Host)
    ensures forall id :: id in Backed(p) <==> id in p.envs && !(|id| >= 7 && id[..7] == "golden-")
  {
    forall id: string ensures BUILDER_PREFIX <= id <==> |id| >= 7 && id[..7] == "golden-" {
    }
  }

  predicate HasSnap(p: Host, id: string, name: Name) {
    id in p.envs && name in p.envs[id].snaps
  }

  predicate HasParent(p: Host, id: string, parent: Option<Name>) {
    parent.Some? ==> HasSnap(p, id, parent.value)
  }

  /** No backup snapshot of environment id is new. */
  ghost predicate NoNew(p: Host, q: Host, id: string) {
    forall name | HasSnap(q, id, name) && name.Mine? :: HasSnap(p, id, name)
  }

  ghost predicate NotThere(p: Host, id: string, name: Name) {
    !HasSnap(p, id, name)
  }

  lemma DriftsNoNew(p: Host, q: Host, id: string)
    requires Drifts(p, q)
    ensures NoNew(p, q, id)
  {
  }

  /** The chain after a send, with the snapshots there were when they were listed. */
  ghost predicate Sends(listed: Host, id: string, chain: seq<Send>, next: seq<Send>) {
    next != [] && next[..|next|-1] ==
      if 0 < |chain| < MAX_CHAIN && HasSnap(listed, id, Tip(chain)) then chain else []
  }

  /** A send is a full one if and only if there was no chain, its snapshot was
      gone, or the chain had maxChain sends, a week's, the full one among them. */
  lemma FullSends(listed: Host, id: string, chain: seq<Send>, next: seq<Send>)
    requires Sends(listed, id, chain, next)
    ensures |next| == 1 <==> chain == [] || |chain| >= 168 || !HasSnap(listed, id, Tip(chain))
    ensures |next| > 1 ==> |next| == |chain| + 1 <= 168 && chain < next
  {
    assert next == next[..|next|-1] + [next[|next|-1]];
  }

  lemma SeenLater(log: seq<Host>, more: seq<Host>, from: nat, to: nat, id: string, tree: Tree)
    requires Seen(log, from, id, tree) && log <= more && to <= from
    ensures Seen(more, to, id, tree)
  {
    var k :| from <= k < |log| && id in log[k].envs && log[k].envs[id].tree == tree;
    assert more[k] == log[k];
  }

  class Backer {
    const home: string -> Path // the environments' workspaces, relative to the pool
    var host: Host
    var bucket: Bucket
    var turns: seq<Turn>
    // With no turn left: all goes well and nothing else happens, or nothing takes effect.
    const smooth: bool
    ghost var log: seq<Host> // the node, moment by moment

    ghost predicate Valid()
      reads this
    {
      BucketOk(bucket, host) && Apart(home, host.envs.Keys)
    }

    /** From now on every call succeeds, and the node changes only by them. */
    predicate Calm()
      reads this
    {
      smooth && turns == []
    }

    /** What happens until a call ends. */
    method Next() returns (done: bool, ok: bool)
      requires Valid()
      modifies this`host, this`turns, this`log
      ensures Valid() && Steps(bucket, old(host), bucket, host) && (ok ==> done)
      ensures log == old(log) + [host] && Drifts(old(host), host)
      ensures old(Calm()) ==> Calm() && ok && host == old(host)
    {
      hide ManifestOk, StillHolds;
      done, ok := smooth, smooth;
      var before := host;
      if turns != [] {
        var t := turns[0];
        turns := turns[1..];
        if Drifts(host, t.after) && Apart(home, t.after.envs.Keys) {
          host := t.after;
        }
        done, ok := t.done, t.done && t.ok;
      }
      NoDrift(before);
      DriftHolds(before, host);
      BucketKept(bucket, bucket, before, host);
      log := log + [host];
    }

    /** S3.Put of a new object. */
    method Put(key: Key, data: Object) returns (ok: bool)
      requires Valid() && !key.ManifestKey? && key !in bucket && IsOld(key, host.clock)
      modifies this
      ensures Valid() && Steps(old(bucket), old(host), bucket, host) && old(log) <= log
      ensures Stored(bucket) == Stored(old(bucket))
      ensures bucket == old(bucket) || bucket == old(bucket)[key := data]
      ensures ok ==> key in bucket && bucket[key] == data
      ensures old(Calm()) ==> Calm() && ok && host == old(host)
    {
      hide ManifestOk, StillHolds;
      var done;
      done, ok := Next();
      ghost var b, p := bucket, host;
      if done {
        bucket := bucket[key := data];
      }
      assert IsOld(key, host.clock) by {
        StepsClock(b, old(host), b, host);
      }
      Same(host);
      BucketKept(b, bucket, p, host);
      StepsTrans(old(bucket), old(host), b, p, bucket, host);
    }

    /** A backup's snapshot of environment id, named after the time. */
    method Snapshot(id: string) returns (name: Name, ok: bool, ghost tree: Tree, ghost gen: nat)
      requires Valid()
      modifies this`host, this`turns, this`log
      ensures Valid() && Steps(bucket, old(host), bucket, host) && old(log) <= log
      ensures name.Mine? && old(host.clock) <= name.at < host.clock && SendKey(id, name) !in bucket
      ensures ok ==> Holds(host, id, name, tree, gen) && Seen(log, |old(log)|, id, tree)
      ensures old(Calm()) ==> Calm() && host.envs.Keys == old(host).envs.Keys
      ensures old(Calm()) && id in old(host).envs ==> ok && host == Later(Snapped(old(host), id, name))
    {
      hide ManifestOk, StillHolds, Holds;
      var done;
      done, ok := Next();
      assert old(host.clock) <= host.clock by { StepsClock(bucket, old(host), bucket, host); }
      var before := host;
      name, tree, gen := Mine(host.clock), map[], 0;
      LaterHolds(host);
      if id in host.envs && done {
        SnappedHolds(host, id);
        tree := host.envs[id].tree;
        host := Snapped(host, id, name);
        gen := host.committed;
      } else {
        ok := false;
      }
      host := Later(host);
      log := log + [host];
      assert log[|old(log)|] == before;
      BucketKept(bucket, bucket, before, host);
      StepsTrans(bucket, old(host), bucket, before, bucket, host);
      assert SendKey(id, name) !in bucket by { assert !IsOld(SendKey(id, name), before.clock); }
    }

    method DeleteSnapshot(id: string, name: Name) returns (ok: bool)
      requires Valid()
      modifies this`host, this`turns, this`log
      ensures Valid() && Steps(bucket, old(host), bucket, host) && old(log) <= log
      ensures NoNew(old(host), host, id) && (ok ==> NotThere(host, id, name))
      ensures old(Calm()) ==> Calm() && ok && host == Dropped(old(host), id, name)
    {
      hide ManifestOk, StillHolds, Holds;
      var done;
      done, ok := Next();
      var before := host;
      DriftsNoNew(old(host), host, id);
      Same(host);
      if done {
        DroppedHolds(host, id, name);
        host := Dropped(host, id, name);
        log := log + [host];
      }
      BucketKept(bucket, bucket, before, host);
      StepsTrans(bucket, old(host), bucket, before, bucket, host);
    }

    /** send: of snapshot name, from parent if there is one. A snapshot that
        is gone fails it, which may leave a part of the stream in the bucket. */
    method SendSnapshot(id: string, name: Name, parent: Option<Name>, ghost tree: Tree, ghost gen: nat,
                        ghost parentTree: Tree, ghost parentGen: nat)
      returns (ok: bool)
      requires Valid() && Holds(host, id, name, tree, gen) && SendKey(id, name) !in bucket
      requires parent.Some? ==> Holds(host, id, parent.value, parentTree, parentGen)
      modifies this
      ensures Valid() && Steps(old(bucket), old(host), bucket, host) && old(log) <= log
      ensures Stored(bucket) == Stored(old(bucket))
      ensures ok ==> SendKey(id, name) in bucket && bucket[SendKey(id, name)] == Sent(
        if parent.None? then Full(name, tree)
        else Since(name, parent.value, Changed(parentTree, tree), Removed(parentTree, tree)))
      ensures old(Calm()) ==> Calm() && host == old(host)
      ensures old(Calm()) && HasSnap(old(host), id, name) && HasParent(old(host), id, parent) ==> ok
    {
      hide ManifestOk, Changed, Removed;
      var done;
      done, ok := Next();
      ghost var p := host;
      assert Holds(host, id, name, tree, gen);
      assert parent.Some? ==> Holds(host, id, parent.value, parentTree, parentGen);
      hide StillHolds;
      var key := SendKey(id, name);
      if !(id in host.envs && name in host.envs[id].snaps && (parent.None? || parent.value in host.envs[id].snaps)) {
        var _ := Put(key, Broken);
        ok := false;
      } else {
        var snaps := host.envs[id].snaps;
        var stream := if parent.None? then Full(name, snaps[name].tree) else
          Since(name, parent.value, Changed(snaps[parent.value].tree, snaps[name].tree),
            Removed(snaps[parent.value].tree, snaps[name].tree));
        var put := Put(key, Sent(stream));
        ok := ok && put;
      }
      StepsTrans(old(bucket), old(host), old(bucket), p, bucket, host);
    }

    /** env: backs environment id up if its workspace is not what eb holds. What
        it returns is restored to what the workspace held at a moment of the
        call. */
    method BackUp(id: string, eb: EnvBackup) returns (r: Option<EnvBackup>)
      requires Valid() && (eb.chain == [] || EnvOk(bucket, host, id, eb))
      requires eb.chain != [] ==> eb.workspace == home(id)
      modifies this
      ensures Valid() && Steps(old(bucket), old(host), bucket, host) && old(log) <= log
      ensures Stored(bucket) == Stored(old(bucket))
      ensures r.Some? ==> EnvOk(bucket, host, id, r.value) && r.value.workspace == home(id)
      ensures r.Some? ==> Seen(log, |old(log)|, id, Contents(bucket, r.value.chain))
      // Unchanged, or sent: from the chain's last snapshot if the chain is
      // short enough and the snapshot was there when they were listed, and
      // in full otherwise.
      ensures r.Some? && r.value.chain != eb.chain ==>
        |log| > |old(log)| + 1 && Sends(log[|old(log)| + 1], id, eb.chain, r.value.chain)
      ensures old(Calm()) ==> Calm() && host.envs.Keys == old(host).envs.Keys
      ensures old(Calm()) && id in old(host).envs && IsLocal(home(id)) ==> r.Some?
    {
      hide ManifestOk, StillHolds, Holds, ChainOk, ChainReceived, Contents, OnlyAdds, BucketOk, Drifts;
      r := None;
      // generation
      var done, ok := Next();
      EnvStill(old(bucket), old(host), bucket, host, id, eb);
      if !ok || id !in host.envs {
        return;
      }
      if |eb.chain| > 0 && host.envs[id].gen == eb.generation {
        Unchanged(bucket, host, id, eb);
        assert log[|old(log)|] == host;
        return Some(eb);
      }
      var parent := if 0 < |eb.chain| < MAX_CHAIN then Some(Tip(eb.chain)) else None;
      ghost var b, p := bucket, host;
      var cleared, hasParent := ClearSnapshots(id, parent);
      StepsTrans(old(bucket), old(host), b, p, bucket, host);
      EnvStill(b, p, bucket, host, id, eb);
      if !cleared {
        return;
      }
      b, p := bucket, host;
      ghost var l := log;
      assert log[|old(log)| + 1] == l[|old(log)| + 1];
      r := SendNew(id, eb, if hasParent then parent else None);
      assert log[|old(log)| + 1] == l[|old(log)| + 1];
      StepsTrans(old(bucket), old(host), b, p, bucket, host);
      if r.Some? {
        SeenLater(log, log, |l|, |old(log)|, id, Contents(bucket, r.value.chain));
      }
    }

    /** Of the backup snapshots on the host, only parent stays. */
    method ClearSnapshots(id: string, parent: Option<Name>) returns (ok: bool, hasParent: bool)
      requires Valid()
      modifies this`host, this`turns, this`log
      ensures Valid() && Steps(bucket, old(host), bucket, host) && old(log) < log
      ensures ok ==> (hasParent <==> parent.Some? && HasSnap(log[|old(log)|], id, parent.value))
      ensures ok ==> forall name | HasSnap(host, id, name) && name.Mine? :: Some(name) == parent
      ensures old(Calm()) ==> Calm() && ok && host.envs.Keys == old(host).envs.Keys
      ensures old(Calm()) && hasParent ==> HasSnap(host, id, parent.value)
    {
      hide BucketOk, StillHolds, Drifts, Steps;
      hasParent := false;
      var done;
      done, ok := Next();
      if !ok {
        return;
      }
      ghost var listed := host;
      var left := if id in host.envs then host.envs[id].snaps.Keys else {};
      while left != {}
        invariant Valid() && Steps(bucket, old(host), bucket, host) && ok
        invariant old(log) < log && log[|old(log)|] == listed
        invariant hasParent <==> parent.Some? && HasSnap(listed, id, parent.value) && parent.value !in left
        invariant forall name | HasSnap(host, id, name) && name.Mine? && name !in left :: Some(name) == parent
        invariant forall name | name in left :: HasSnap(listed, id, name)
        invariant old(Calm()) ==> Calm() && host.envs.Keys == old(host).envs.Keys
        invariant old(Calm()) && parent.Some? && HasSnap(listed, id, parent.value) ==> HasSnap(host, id, parent.value)
        decreases left
      {
        var name :| name in left;
        left := left - {name};
        if Some(name) == parent {
          hasParent := true;
        } else if name.Mine? {
          ghost var p := host;
          ok := DeleteSnapshot(id, name);
          StepsTrans(bucket, old(host), bucket, p, bucket, host);
          if !ok {
            return;
          }
        }
      }
    }

    /** A new snapshot, sent from parent if there is one, and the chain with it. */
    method SendNew(id: string, eb: EnvBackup, parent: Option<Name>) returns (r: Option<EnvBackup>)
      requires Valid() && (eb.chain == [] || EnvOk(bucket, host, id, eb))
      requires parent.Some? ==> 0 < |eb.chain| < MAX_CHAIN && parent.value == Tip(eb.chain)
      modifies this
      ensures Valid() && Steps(old(bucket), old(host), bucket, host) && old(log) <= log
      ensures Stored(bucket) == Stored(old(bucket))
      ensures r.Some? ==> EnvOk(bucket, host, id, r.value) && r.value.workspace == home(id)
      ensures r.Some? ==> Seen(log, |old(log)|, id, Contents(bucket, r.value.chain))
      ensures r.Some? ==>
        |r.value.chain| > 0 && r.value.chain[..|r.value.chain|-1] == if parent.Some? then eb.chain else []
      ensures old(Calm()) ==> Calm() && host.envs.Keys == old(host).envs.Keys
      ensures old(Calm()) && id in old(host).envs && IsLocal(home(id)) && HasParent(old(host), id, parent) ==> r.Some?
    {
      assert eb.chain != [] ==> ChainOk(bucket, host.clock, id, eb.chain);
      hide ManifestOk, StillHolds, Holds, ChainReceived, Contents, OnlyAdds, BucketOk, Seen;
      r := None;
      var name, ok, tree, gen := Snapshot(id);
      if !ok {
        return;
      }
      EnvStill(bucket, old(host), bucket, host, id, eb);
      ghost var p, l := host, log;
      r := SendTaken(id, eb, parent, name, tree, gen);
      StepsTrans(old(bucket), old(host), old(bucket), p, bucket, host);
      SeenLater(l, log, |old(log)|, |old(log)|, id, tree);
    }

    method SendTaken(id: string, eb: EnvBackup, parent: Option<Name>, name: Name, ghost tree: Tree, ghost gen: nat)
      returns (r: Option<EnvBackup>)
      requires Valid() && Holds(host, id, name, tree, gen) && SendKey(id, name) !in bucket && name.Mine?
      requires parent.Some? ==>
        |eb.chain| < MAX_CHAIN && EnvOk(bucket, host, id, eb) && ChainOk(bucket, name.at, id, eb.chain)
      requires parent.Some? ==> parent.value == Tip(eb.chain)
      modifies this
      ensures Valid() && Steps(old(bucket), old(host), bucket, host) && old(log) <= log
      ensures Stored(bucket) == Stored(old(bucket))
      ensures r.Some? ==>
        EnvOk(bucket, host, id, r.value) && r.value.workspace == home(id) && Contents(bucket, r.value.chain) == tree
      ensures r.Some? ==> r.value.chain == (if parent.Some? then eb.chain else []) + [Send(name, SendKey(id, name))]
      ensures old(Calm()) ==> Calm() && host.envs.Keys == old(host).envs.Keys
      ensures old(Calm()) && HasSnap(old(host), id, name) && HasParent(old(host), id, parent) && IsLocal(home(id)) ==>
        r.Some?
    {
      hide ManifestOk, StillHolds, ChainOk, ChainReceived, Contents, BucketOk, Changed, Removed, OnlyAdds;
      r := None;
      ghost var before := Contents(bucket, eb.chain);
      var ok := SendSnapshot(id, name, parent, tree, gen, before, eb.generation);
      ghost var b, q := bucket, host;
      if !ok {
        var _ := DeleteSnapshot(id, name);
        StepsTrans(old(bucket), old(host), b, q, bucket, host);
        return;
      }
      // createdAt
      var done;
      done, ok := Next();
      StepsTrans(old(bucket), old(host), b, q, bucket, host);
      HoldsStill(old(bucket), old(host), bucket, host, id, name, tree, gen);
      if !ok || id !in host.envs || name !in host.envs[id].snaps {
        return;
      }
      var taken := host.envs[id].snaps[name].gen;
      var send := Send(name, SendKey(id, name));
      var chain := [send];
      q := host;
      if parent.Some? {
        chain := eb.chain + [send];
        var _ := DeleteSnapshot(id, parent.value);
        StepsTrans(old(bucket), old(host), bucket, q, bucket, host);
      }
      HoldsStill(old(bucket), old(host), bucket, host, id, name, tree, gen);
      ChainGrows(old(bucket), bucket, host.clock, id, eb.chain, parent, name, tree);
      if !IsLocal(home(id)) {
        return;
      }
      r := Some(EnvBackup(home(id), taken, chain));
    }

    /** Once. Wherever it stops or fails, the manifest in the bucket can be
        restored; if it doesn't fail, the manifest holds every environment
        there was when it listed them, as it was at a moment of the run, and
        the bucket holds nothing else. */
    method Once() returns (ok: bool, ghost listed: nat)
      requires Valid() && AtHome(home, Stored(bucket))
      modifies this
      ensures Valid() && AtHome(home, Stored(bucket)) && old(log) <= log
      ensures ok ==> |old(log)| <= listed < |log| && Apart(home, log[listed].envs.Keys)
      ensures ok ==> Stored(bucket).state.Some? && Stored(bucket).envs.Keys == Backed(log[listed])
      ensures ok ==> Recent(bucket, Stored(bucket), log, |old(log)|, Backed(log[listed]))
      ensures ok ==> bucket.Keys == Kept(Stored(bucket))
      // So of those listed, all but the ones named golden-... are in it, and nothing else.
      ensures ok ==> forall id ::
        id in Stored(bucket).envs <==> id in log[listed].envs && !(|id| >= 7 && id[..7] == "golden-")
      ensures ok ==> forall id | id in Stored(bucket).envs ::
        Seen(log, |old(log)|, id, Contents(bucket, Stored(bucket).envs[id].chain))
      // Failed or not, no backup is lost but that of an environment that wasn't listed, or a golden builder's.
      ensures Safe(bucket, Stored(bucket), log, |old(log)|, Saved(old(bucket)))
      ensures forall id | id in Stored(old(bucket)).envs && id !in Stored(bucket).envs ::
        |old(log)| <= listed < |log| && (id !in log[listed].envs || (|id| >= 7 && id[..7] == "golden-"))
      ensures old(Calm()) && AllLocal(home, Backed(old(host))) ==> ok
      ensures old(Calm()) && (forall id | id in old(host).envs :: home(id) != [] && ".." !in home(id)) ==> ok
    {
      hide BucketOk, ManifestOk, StillHolds, Contents, Kept, EnvOk, OnlyAdds, Seen, Backed, AllLocal;
      hide Safe, Saved, AtHome;
      LocalAre(home, host);
      ok, listed := OnceListed();
      if listed < |log| {
        BackedAre(log[listed]);
      }
    }

    /** The same, of the environments that are to be backed up. */
    method OnceListed() returns (ok: bool, ghost listed: nat)
      requires Valid() && AtHome(home, Stored(bucket))
      modifies this
      ensures Valid() && AtHome(home, Stored(bucket)) && old(log) <= log
      ensures ok ==> |old(log)| <= listed < |log| && Apart(home, log[listed].envs.Keys)
      ensures ok ==> Stored(bucket).state.Some? && Stored(bucket).envs.Keys == Backed(log[listed])
      ensures ok ==> Recent(bucket, Stored(bucket), log, |old(log)|, Backed(log[listed]))
      ensures ok ==> bucket.Keys == Kept(Stored(bucket))
      ensures Safe(bucket, Stored(bucket), log, |old(log)|, Saved(old(bucket)))
      ensures forall id | id in Stored(old(bucket)).envs && id !in Stored(bucket).envs ::
        |old(log)| <= listed < |log| && id !in Backed(log[listed])
      ensures old(Calm()) && AllLocal(home, Backed(old(host))) ==> ok
    {
      hide BucketOk, ManifestOk, StillHolds, Contents, Kept, EnvOk, OnlyAdds, Seen, Backed, AllLocal;
      SafeAtFirst(bucket, log, |log|);
      hide Safe, Saved;
      listed := 0;
      var done;
      done, ok := Next();
      if !ok {
        return;
      }
      var m := Stored(bucket);
      KeysInOrder(bucket, host);
      ghost var p := host;
      done, ok := Next();
      ManifestStill(bucket, p, bucket, host, m);
      ghost var from, was, keep := |old(log)|, Saved(bucket), m.envs.Keys;
      SafeLater(bucket, m, old(log), log, from, was);
      if !ok {
        return;
      }
      listed := |log| - 1;
      var live := Backed(host);
      BackedThere(host);
      var all;
      ok, all, m := SendAll(live, m, from, was, keep);
      if !ok {
        return;
      }
      var finished := Finish(live, m, from, was, keep);
      ok := finished && all;
    }

    /** No backup of those to keep is lost, in the manifest m to come or in the
        bucket's. */
    ghost predicate Safely(m: Manifest, from: nat, was: map<string, Tree>, keep: set<string>)
      reads this
    {
      && from <= |log| && Safe(bucket, m, log, from, was) && Safe(bucket, Stored(bucket), log, from, was)
      && keep <= m.envs.Keys && keep <= Stored(bucket).envs.Keys
    }

    /** Once's loop: false if a save failed; all says no environment's backup did. */
    method SendAll(live: set<string>, m0: Manifest, ghost from: nat, ghost was: map<string, Tree>,
                   ghost keep: set<string>)
      returns (ok: bool, all: bool, m: Manifest)
      requires Safely(m0, from, was, keep)
      requires from <= |log| && Valid() && ManifestOk(bucket, host, m0) && AtHome(home, m0) &&
        AtHome(home, Stored(bucket))
      modifies this
      ensures Valid() && AtHome(home, Stored(bucket)) && ManifestOk(bucket, host, m) && AtHome(home, m) &&
        old(log) <= log
      ensures Safely(m, from, was, keep)
      ensures m0.envs.Keys <= m.envs.Keys <= m0.envs.Keys + live && m.state == m0.state
      ensures ok && all ==>
        live <= m.envs.Keys && Recent(bucket, m, log, from, live) && (live != {} ==> Stored(bucket) == m)
      ensures old(Calm()) && live <= old(host).envs.Keys && AllLocal(home, live) ==> ok && all && Calm()
    {
      hide BucketOk, ManifestOk, Contents, Seen, AtHome, Recent, AllLocal, Safely;
      ok, all, m := true, true, m0;
      var left := live;
      RecentNone(bucket, m, log, from);
      assert live - left == {};
      while left != {}
        invariant Valid() && AtHome(home, Stored(bucket)) && ManifestOk(bucket, host, m) && AtHome(home, m) &&
          old(log) <= log
        invariant Safely(m, from, was, keep) && from <= |log|
        invariant left <= live && m0.envs.Keys <= m.envs.Keys <= m0.envs.Keys + live && m.state == m0.state
        invariant all ==>
          live - left <= m.envs.Keys && Recent(bucket, m, log, from, live - left) &&
          (left != live ==> Stored(bucket) == m)
        invariant old(Calm()) && live <= old(host).envs.Keys && AllLocal(home, live) ==>
          all && Calm() && host.envs.Keys == old(host).envs.Keys
        decreases left
      {
        var id :| id in left;
        LocalOne(home, live, id);
        ghost var done := live - left;
        left := left - {id};
        assert live - left == done + {id};
        var sent;
        ok, sent, m := SendEnv(id, m, from, done, was, keep);
        all := all && sent;
        if !ok {
          return;
        }
      }
      assert live - left == live;
    }

    /** One turn of the loop. */
    method SendEnv(id: string, m0: Manifest, ghost from: nat, ghost ids: set<string>,
                   ghost was: map<string, Tree>, ghost keep: set<string>)
      returns (ok: bool, sent: bool, m: Manifest)
      requires Safely(m0, from, was, keep)
      requires from <= |log| && Valid() && ManifestOk(bucket, host, m0) && AtHome(home, m0) &&
        AtHome(home, Stored(bucket)) && id !in ids
      modifies this
      ensures Valid() && AtHome(home, Stored(bucket)) && ManifestOk(bucket, host, m) && AtHome(home, m) &&
        old(log) <= log
      ensures Safely(m, from, was, keep)
      ensures m.state == m0.state && m.envs.Keys == m0.envs.Keys + if sent then {id} else {}
      ensures sent && ok ==> Stored(bucket) == m
      ensures sent && Recent(old(bucket), m0, old(log), from, ids) ==> Recent(bucket, m, log, from, ids + {id})
      ensures old(Calm()) ==> Calm() && ok && host.envs.Keys == old(host).envs.Keys
      ensures old(Calm()) && id in old(host).envs && IsLocal(home(id)) ==> sent
    {
      hide BucketOk, ManifestOk, StillHolds, Contents, EnvOk, OnlyAdds, Seen, Safe, Steps, Recent, AtHome, Safely;
      ok, m := true, m0;
      var next := BackUpSafely(id, m0, from, ids, was, keep);
      sent := next.Some?;
      if sent {
        ManifestGrows(bucket, host, m, id, next.value);
        SafelyMore(m, id, next.value, from, was, keep);
        RecentMore(bucket, m, id, next.value, log, from, ids);
        AtHomeMore(home, m, id, next.value);
        m := m.(envs := m.envs[id := next.value]);
        ok := SaveSafely(m, from, ids + {id}, was, keep);
      }
    }

    lemma SafelyMore(m: Manifest, id: string, eb: EnvBackup, from: nat, was: map<string, Tree>, keep: set<string>)
      requires Safely(m, from, was, keep) && Seen(log, from, id, Contents(bucket, eb.chain))
      ensures Safely(m.(envs := m.envs[id := eb]), from, was, keep)
    {
      hide Safe;
      SafeMore(bucket, m, id, eb, log, from, was);
    }

    /** Backs environment id up from its backup in m. */
    method BackUpSafely(id: string, m: Manifest, ghost from: nat, ghost ids: set<string>, ghost was: map<string, Tree>,
                        ghost keep: set<string>)
      returns (r: Option<EnvBackup>)
      requires Safely(m, from, was, keep) && Valid() && ManifestOk(bucket, host, m) && AtHome(home, m)
      requires AtHome(home, Stored(bucket)) && from <= |log|
      modifies this
      ensures Safely(m, from, was, keep) && Valid() && ManifestOk(bucket, host, m) && AtHome(home, Stored(bucket))
      ensures old(log) <= log
      ensures Recent(old(bucket), m, old(log), from, ids) ==> Recent(bucket, m, log, from, ids)
      ensures r.Some? ==> EnvOk(bucket, host, id, r.value) && r.value.workspace == home(id)
      ensures r.Some? ==> Seen(log, from, id, Contents(bucket, r.value.chain))
      ensures old(Calm()) ==> Calm() && host.envs.Keys == old(host).envs.Keys
      ensures old(Calm()) && id in old(host).envs && IsLocal(home(id)) ==> r.Some?
    {
      KeysInOrder(bucket, host);
      HomeOf(home, m, id);
      hide BucketOk, ManifestOk, StillHolds, Contents, EnvOk, OnlyAdds, Seen, Safe, Steps, Recent, AtHome, Sends;
      EnvOf(bucket, host, m, id);
      r := BackUp(id, if id in m.envs then m.envs[id] else EnvBackup([], 0, []));
      ManifestStill(old(bucket), old(host), bucket, host, m);
      RecentStill(old(bucket), old(host), bucket, host, m, old(log), log, from, ids);
      SafeStill(old(bucket), old(host), bucket, host, m, old(log), log, from, was);
      SafeStill(old(bucket), old(host), bucket, host, Stored(old(bucket)), old(log), log, from, was);
      if r.Some? {
        SeenLater(log, log, |old(log)|, from, id, Contents(bucket, r.value.chain));
      }
    }

    /** PutState loses no backup either. */
    method PutStateSafely(m: Manifest, ghost from: nat, ghost ids: set<string>, ghost was: map<string, Tree>,
                          ghost keep: set<string>)
      returns (key: Option<Key>)
      requires Safely(m, from, was, keep) && Valid() && ManifestOk(bucket, host, m) && AtHome(home, Stored(bucket))
      modifies this
      ensures Safely(m, from, was, keep) && Valid() && AtHome(home, Stored(bucket)) && old(log) <= log
      ensures Recent(old(bucket), m, old(log), from, ids) ==> Recent(bucket, m, log, from, ids)
      ensures key.Some? ==> ManifestOk(bucket, host, m.(state := key))
      ensures old(Calm()) ==> Calm() && key.Some?
    {
      KeysInOrder(bucket, host);
      hide BucketOk, ManifestOk, StillHolds, Contents, EnvOk, OnlyAdds, Seen, Safe, Recent, AtHome, Steps;
      key := PutState(m);
      SafeStill(old(bucket), old(host), bucket, host, m, old(log), log, from, was);
      SafeStill(old(bucket), old(host), bucket, host, Stored(old(bucket)), old(log), log, from, was);
      RecentStill(old(bucket), old(host), bucket, host, m, old(log), log, from, ids);
    }

    /** Saves m, in which no backup to keep is lost. */
    method SaveSafely(m: Manifest, ghost from: nat, ghost ids: set<string>, ghost was: map<string, Tree>,
                      ghost keep: set<string>)
      returns (ok: bool)
      requires Valid() && ManifestOk(bucket, host, m) && AtHome(home, m) && AtHome(home, Stored(bucket))
      requires Safely(m, from, was, keep)
      modifies this
      ensures Valid() && ManifestOk(bucket, host, m) && AtHome(home, Stored(bucket)) && old(log) <= log
      ensures Safely(m, from, was, keep) && (ok ==> Stored(bucket) == m)
      ensures Recent(old(bucket), m, old(log), from, ids) ==> Recent(bucket, m, log, from, ids)
      ensures old(Calm()) ==> Calm() && ok && host == old(host)
    {
      KeysInOrder(bucket, host);
      hide BucketOk, ManifestOk, StillHolds, Contents, EnvOk, OnlyAdds, Seen, Safe, Recent, AtHome, Steps;
      ok := Save(m);
      SafeStill(old(bucket), old(host), bucket, host, m, old(log), log, from, was);
      SafeStill(old(bucket), old(host), bucket, host, Stored(old(bucket)), old(log), log, from, was);
      ManifestStill(old(bucket), old(host), bucket, host, m);
      RecentStill(old(bucket), old(host), bucket, host, m, old(log), log, from, ids);
    }

    /** The state's key, named after the time. */
    method NewState() returns (key: Key)
      requires Valid()
      modifies this`host
      ensures Valid() && Steps(bucket, old(host), bucket, host)
      ensures key.StateKey? && key.at < host.clock && key !in bucket
      ensures turns == old(turns)
    {
      hide ManifestOk, StillHolds;
      key := StateKey(host.clock);
      LaterHolds(host);
      assert !IsOld(key, host.clock);
      host := Later(host);
      BucketKept(bucket, bucket, old(host), host);
    }

    /** state: uploads the state around the workspaces. */
    method PutState(m: Manifest) returns (key: Option<Key>)
      requires Valid() && ManifestOk(bucket, host, m)
      modifies this
      ensures Valid() && Steps(old(bucket), old(host), bucket, host) && old(log) <= log &&
        Stored(bucket) == Stored(old(bucket))
      ensures key.Some? ==> ManifestOk(bucket, host, m.(state := key))
      ensures old(Calm()) ==> Calm() && key.Some?
    {
      hide BucketOk, StillHolds, EnvOk, OnlyAdds;
      key := None;
      var done, ok := Next();
      if !ok {
        return;
      }
      ghost var p := host;
      var k := NewState();
      StepsTrans(bucket, old(host), bucket, p, bucket, host);
      ghost var q := host;
      ok := Put(k, State);
      StepsTrans(old(bucket), old(host), old(bucket), q, bucket, host);
      ManifestStill(old(bucket), old(host), bucket, host, m);
      StepsClock(old(bucket), q, bucket, host);
      if ok {
        key := Some(k);
      }
    }

    /** Once's end: forgets the environments that are gone, uploads the state,
        saves and sweeps. */
    method Finish(live: set<string>, m0: Manifest, ghost from: nat, ghost was: map<string, Tree>,
                  ghost keep: set<string>)
      returns (ok: bool)
      requires Safely(m0, from, was, keep)
      requires Valid() && ManifestOk(bucket, host, m0) && AtHome(home, m0) && AtHome(home, Stored(bucket))
      modifies this
      ensures Valid() && AtHome(home, Stored(bucket)) && old(log) <= log
      ensures Safe(bucket, Stored(bucket), log, from, was) && keep * live <= Stored(bucket).envs.Keys
      ensures ok ==> Stored(bucket).state.Some? && Stored(bucket).envs.Keys == m0.envs.Keys * live
      ensures ok ==> bucket.Keys == Kept(Stored(bucket))
      ensures ok && Recent(old(bucket), m0, old(log), from, live) ==> Recent(bucket, Stored(bucket), log, from, live)
      ensures old(Calm()) ==> ok
    {
      var m := Only(m0, live);
      hide BucketOk, StillHolds, EnvOk, OnlyAdds, Contents, Seen, Kept, ManifestOk, Safe, Recent, AtHome, Steps;
      hide Safely, Only;
      Fewer(bucket, host, m0, home, live, log, from, was);
      SafelyFewer(m0, live, from, was, keep);
      var key := PutStateSafely(m, from, live, was, keep * live);
      SafelyStored(m, from, was, keep * live);
      if key.None? {
        return false;
      }
      AtHomeState(home, m, key);
      RecentState(bucket, m, key, log, from, live);
      SafelyState(m, key, from, was, keep * live);
      m := m.(state := key);
      ok := SaveAndSweep(m, from, live, was, keep * live);
    }

    lemma SafelyFewer(m: Manifest, live: set<string>, from: nat, was: map<string, Tree>, keep: set<string>)
      requires Safely(m, from, was, keep)
      ensures Safely(Only(m, live), from, was, keep * live)
    {
    }

    lemma SafelyState(m: Manifest, key: Option<Key>, from: nat, was: map<string, Tree>, keep: set<string>)
      requires Safely(m, from, was, keep)
      ensures Safely(m.(state := key), from, was, keep)
    {
      SafeState(bucket, m, key, log, from, was);
    }

    lemma SafelyStored(m: Manifest, from: nat, was: map<string, Tree>, keep: set<string>)
      requires Safely(m, from, was, keep)
      ensures Safe(bucket, Stored(bucket), log, from, was) && keep <= Stored(bucket).envs.Keys
    {
    }

    method SaveAndSweep(m: Manifest, ghost from: nat, ghost ids: set<string>, ghost was: map<string, Tree>,
                        ghost keep: set<string>)
      returns (ok: bool)
      requires Valid() && ManifestOk(bucket, host, m) && AtHome(home, m) && AtHome(home, Stored(bucket))
      requires Safely(m, from, was, keep) && m.state.Some?
      modifies this
      ensures Valid() && AtHome(home, Stored(bucket)) && old(log) <= log
      ensures Safe(bucket, Stored(bucket), log, from, was) && keep <= Stored(bucket).envs.Keys
      ensures ok ==> Stored(bucket) == m && bucket.Keys == Kept(m)
      ensures ok && Recent(old(bucket), m, old(log), from, ids) ==> Recent(bucket, m, log, from, ids)
      ensures old(Calm()) ==> ok
    {
      hide BucketOk, StillHolds, EnvOk, OnlyAdds, Contents, Seen, Kept, ManifestOk, Safe, Recent, AtHome, Steps, Safely;
      ok := SaveSafely(m, from, ids, was, keep);
      SafelyStored(m, from, was, keep);
      if !ok {
        return;
      }
      ghost var b, l := bucket, log;
      ok := Sweep(m);
      RecentSwept(b, bucket, m, l, log, from, ids);
      SafeSwept(b, bucket, m, l, log, from, was);
    }

    /** save. */
    method Save(m: Manifest) returns (ok: bool)
      requires Valid() && ManifestOk(bucket, host, m)
      modifies this
      ensures Valid() && Steps(old(bucket), old(host), bucket, host) && old(log) <= log
      ensures Stored(bucket) == Stored(old(bucket)) || Stored(bucket) == m
      ensures ok ==> Stored(bucket) == m
      ensures old(Calm()) ==> Calm() && ok && host == old(host)
    {
      hide ManifestOk, StillHolds;
      var done;
      done, ok := Next();
      ghost var b, p := bucket, host;
      ManifestKept(b, b, old(host), p, m);
      if done {
        bucket := bucket[ManifestKey := Listing(m)];
      }
      Same(host);
      BucketKept(b, bucket, p, host);
      StepsTrans(old(bucket), old(host), b, p, bucket, host);
    }

    /** sweep: deletes the objects m doesn't name. */
    method Sweep(m: Manifest) returns (ok: bool)
      requires Valid() && Stored(bucket) == m && ManifestKey in bucket
      modifies this
      ensures Valid() && Stored(bucket) == m && old(log) <= log
      ensures forall id | id in m.envs :: Contents(bucket, m.envs[id].chain) == Contents(old(bucket), m.envs[id].chain)
      ensures ok ==> bucket.Keys == Kept(m)
      ensures old(Calm()) ==> ok
    {
      assert ManifestKey in Kept(m);
      hide StillHolds, Holds, Contents, ChainReceived, Kept, BucketOk;
      var done;
      done, ok := Next();
      if !ok {
        return;
      }
      var left := bucket.Keys;
      while left != {}
        invariant Valid() && Stored(bucket) == m && old(log) <= log && left <= bucket.Keys && ManifestKey in bucket
        invariant forall id | id in m.envs ::
          Contents(bucket, m.envs[id].chain) == Contents(old(bucket), m.envs[id].chain)
        invariant ok ==> bucket.Keys <= Kept(m) + left
        invariant old(Calm()) ==> Calm() && ok
        decreases left
      {
        var key :| key in left;
        left := left - {key};
        if key !in Kept(m) {
          var deleted;
          done, deleted := Next();
          if done {
            KeysInOrder(bucket, host);
            SweptBucket(bucket, host, key);
            SweptKeeps(bucket, host, m, key);
            bucket := bucket - {key};
          }
          ok := ok && deleted;
        }
      }
      AllThere(bucket, host);
    }
  }

  predicate AllLocal(home: string -> Path, ids: set<string>) {
    forall id | id in ids :: IsLocal(home(id))
  }

  lemma LocalAre(home: string -> Path, p: Host)
    ensures (forall id | id in p.envs :: home(id) != [] && ".." !in home(id)) ==> AllLocal(home, Backed(p))
  {
  }

  lemma LocalOne(home: string -> Path, ids: set<string>, id: string)
    requires id in ids
    ensures AllLocal(home, ids) ==> IsLocal(home(id))
  {
  }

  lemma RecentNone(b: Bucket, m: Manifest, log: seq<Host>, from: nat)
    ensures Recent(b, m, log, from, {})
  {
  }

  lemma RecentMore(b: Bucket, m: Manifest, id: string, eb: EnvBackup, log: seq<Host>, from: nat, ids: set<string>)
    requires Seen(log, from, id, Contents(b, eb.chain)) && id !in ids
    ensures Recent(b, m, log, from, ids) ==> Recent(b, m.(envs := m.envs[id := eb]), log, from, ids + {id})
  {
    hide Contents, Seen;
  }

  lemma HomeOf(home: string -> Path, m: Manifest, id: string)
    requires AtHome(home, m)
    ensures id in m.envs ==> m.envs[id].workspace == home(id)
  {
  }

  lemma AtHomeMore(home: string -> Path, m: Manifest, id: string, eb: EnvBackup)
    requires AtHome(home, m) && eb.workspace == home(id)
    ensures AtHome(home, m.(envs := m.envs[id := eb]))
  {
  }

  /** A manifest without the environments that are gone. */
  function Only(m: Manifest, live: set<string>): Manifest {
    m.(envs := map id | id in m.envs && id in live :: m.envs[id])
  }

  lemma Fewer(b: Bucket, p: Host, m: Manifest, home: string -> Path, live: set<string>, log: seq<Host>, from: nat,
              was: map<string, Tree>)
    requires ManifestOk(b, p, m) && AtHome(home, m)
    ensures var n := Only(m, live);
      && ManifestOk(b, p, n) && AtHome(home, n) && n.envs.Keys == m.envs.Keys * live
      && (Recent(b, m, log, from, live) ==> Recent(b, n, log, from, live))
  {
    hide EnvOk, Contents, Seen;
  }

  lemma AtHomeState(home: string -> Path, m: Manifest, key: Option<Key>)
    requires AtHome(home, m)
    ensures AtHome(home, m.(state := key))
  {
  }

  lemma SafeAtFirst(b: Bucket, log: seq<Host>, from: nat)
    ensures Safe(b, Stored(b), log, from, Saved(b))
  {
    hide Contents;
  }

  lemma SafeLater(b: Bucket, m: Manifest, log: seq<Host>, more: seq<Host>, from: nat, was: map<string, Tree>)
    requires Safe(b, m, log, from, was) && log <= more
    ensures Safe(b, m, more, from, was)
  {
    hide Contents, Seen;
    forall id | id in m.envs && Seen(log, from, id, Contents(b, m.envs[id].chain))
      ensures Seen(more, from, id, Contents(b, m.envs[id].chain))
    {
      SeenLater(log, more, from, from, id, Contents(b, m.envs[id].chain));
    }
  }

  lemma SafeStill(b: Bucket, p: Host, c: Bucket, q: Host, m: Manifest, log: seq<Host>, more: seq<Host>, from: nat,
                  was: map<string, Tree>)
    requires Steps(b, p, c, q) && ManifestOk(b, p, m) && log <= more
    ensures Safe(b, m, log, from, was) ==> Safe(c, m, more, from, was)
  {
    hide BucketOk, Contents, EnvOk, Seen, StillHolds;
    forall id | id in m.envs ensures Contents(c, m.envs[id].chain) == Contents(b, m.envs[id].chain) {
      EnvOf(b, p, m, id);
      EnvStill(b, p, c, q, id, m.envs[id]);
    }
    SafeSwept(b, c, m, log, more, from, was);
  }

  lemma SafeSwept(b: Bucket, c: Bucket, m: Manifest, log: seq<Host>, more: seq<Host>, from: nat, was: map<string, Tree>)
    requires forall id | id in m.envs :: Contents(c, m.envs[id].chain) == Contents(b, m.envs[id].chain)
    requires log <= more
    ensures Safe(b, m, log, from, was) ==> Safe(c, m, more, from, was)
  {
    hide Contents, Seen;
    if Safe(b, m, log, from, was) {
      SafeLater(b, m, log, more, from, was);
    }
  }

  lemma SafeMore(b: Bucket, m: Manifest, id: string, eb: EnvBackup, log: seq<Host>, from: nat, was: map<string, Tree>)
    requires Safe(b, m, log, from, was) && Seen(log, from, id, Contents(b, eb.chain))
    ensures Safe(b, m.(envs := m.envs[id := eb]), log, from, was)
  {
    hide Contents, Seen;
  }

  lemma SafeState(b: Bucket, m: Manifest, key: Option<Key>, log: seq<Host>, from: nat, was: map<string, Tree>)
    ensures Safe(b, m, log, from, was) == Safe(b, m.(state := key), log, from, was)
  {
  }

  lemma BackedThere(p: Host)
    ensures Backed(p) <= p.envs.Keys
  {
  }

  lemma ManifestStill(b: Bucket, p: Host, c: Bucket, q: Host, m: Manifest)
    requires Steps(b, p, c, q) && ManifestOk(b, p, m)
    ensures ManifestOk(c, q, m)
  {
    hide BucketOk, ManifestOk;
    ManifestKept(b, c, p, q, m);
  }

  lemma EnvOf(b: Bucket, p: Host, m: Manifest, id: string)
    requires ManifestOk(b, p, m)
    ensures id in m.envs ==> EnvOk(b, p, id, m.envs[id]) && m.envs[id].chain != []
  {
  }

  lemma RecentStill(b: Bucket, p: Host, c: Bucket, q: Host, m: Manifest, log: seq<Host>, more: seq<Host>, from: nat,
    ids: set<string>)
    requires Steps(b, p, c, q) && ManifestOk(b, p, m) && log <= more
    ensures Recent(b, m, log, from, ids) ==> Recent(c, m, more, from, ids)
  {
    hide BucketOk, Contents, EnvOk, Seen, StillHolds;
    if Recent(b, m, log, from, ids) {
      forall id | id in ids ensures Seen(more, from, id, Contents(c, m.envs[id].chain)) {
        EnvOf(b, p, m, id);
        EnvStill(b, p, c, q, id, m.envs[id]);
        SeenLater(log, more, from, from, id, Contents(b, m.envs[id].chain));
      }
    }
  }

  lemma RecentState(b: Bucket, m: Manifest, key: Option<Key>, log: seq<Host>, from: nat, ids: set<string>)
    ensures Recent(b, m, log, from, ids) == Recent(b, m.(state := key), log, from, ids)
  {
  }

  lemma RecentSwept(b: Bucket, c: Bucket, m: Manifest, log: seq<Host>, more: seq<Host>, from: nat, ids: set<string>)
    requires forall id | id in m.envs :: Contents(c, m.envs[id].chain) == Contents(b, m.envs[id].chain)
    requires log <= more
    ensures Recent(b, m, log, from, ids) ==> Recent(c, m, more, from, ids)
  {
    hide Contents, Seen;
    if Recent(b, m, log, from, ids) {
      forall id | id in ids ensures Seen(more, from, id, Contents(c, m.envs[id].chain)) {
        SeenLater(log, more, from, from, id, Contents(b, m.envs[id].chain));
      }
    }
  }

  lemma KeysInOrder(b: Bucket, p: Host)
    requires BucketOk(b, p)
    ensures ManifestOk(b, p, Stored(b))
  {
  }

  /** At every moment, every object the manifest names is in the bucket. */
  lemma AllThere(b: Bucket, p: Host)
    requires BucketOk(b, p) && ManifestKey in b
    ensures Kept(Stored(b)) <= b.Keys
  {
    hide ChainOk, Contents, Holds;
    var m := Stored(b);
    forall id, i | id in m.envs && 0 <= i < |m.envs[id].chain| ensures m.envs[id].chain[i].key in b {
      assert EnvOk(b, p, id, m.envs[id]);
      ChainThere(b, p.clock, id, m.envs[id].chain, i);
    }
  }

  lemma {:induction false} ReceivedThere(b: Bucket, chain: seq<Send>, i: nat)
    requires ChainReceived(b, chain).Some? && i < |chain|
    ensures chain[i].key in b && b[chain[i].key].Sent?
    decreases |chain|
  {
    if i < |chain| - 1 {
      ReceivedThere(b, chain[..|chain|-1], i);
    }
  }

  lemma ChainThere(b: Bucket, now: nat, id: string, chain: seq<Send>, i: nat)
    requires ChainOk(b, now, id, chain) && i < |chain|
    ensures chain[i].key in b && b[chain[i].key].Sent?
  {
    ReceivedThere(b, chain, i);
  }

  lemma HoldsStill(b: Bucket, p: Host, c: Bucket, q: Host, id: string, name: Name, tree: Tree, gen: nat)
    requires Steps(b, p, c, q) && Holds(p, id, name, tree, gen)
    ensures Holds(q, id, name, tree, gen)
  {
  }

  lemma Unchanged(b: Bucket, p: Host, id: string, eb: EnvBackup)
    requires EnvOk(b, p, id, eb) && id in p.envs && p.envs[id].gen == eb.generation
    ensures p.envs[id].tree == Contents(b, eb.chain)
  {
  }

  lemma EnvStill(b: Bucket, p: Host, c: Bucket, q: Host, id: string, eb: EnvBackup)
    requires Steps(b, p, c, q) && (eb.chain == [] || EnvOk(b, p, id, eb))
    ensures eb.chain == [] || (EnvOk(c, q, id, eb) && Contents(c, eb.chain) == Contents(b, eb.chain))
  {
    hide BucketOk, Holds, Contents, ChainReceived;
    if eb.chain != [] {
      EnvKept(b, c, p, q, id, eb);
    }
  }

  lemma NoDrift(p: Host)
    ensures Drifts(p, p)
  {
  }

  lemma StepsClock(b: Bucket, p: Host, c: Bucket, q: Host)
    requires Steps(b, p, c, q)
    ensures p.clock <= q.clock
  {
  }
}
