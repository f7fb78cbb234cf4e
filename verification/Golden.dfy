/** Golden snapshots (internal/store/golden.go): the list of what a build
    copied in, the strip that removes it again, and the overlay of a worktree
    over a golden tree. */
module Golden {
  import opened Trees

  // ---------------------------------------------------------------- overlay

  /** fs.WalkDir's order, as far as overlay needs it: every entry of the tree
      once, a directory before what is in it. */
  ghost predicate IsWalk(walk: seq<Path>, t: Tree) {
    && (forall i | 0 <= i < |walk| :: walk[i] in t)
    && (forall p | p in t :: p in walk)
    && (forall i, j | 0 <= i < j < |walk| :: walk[i] != walk[j])
    && (forall i, k | 0 <= i < |walk| && 0 < k < |walk[i]| :: walk[i][..k] in walk[..i])
  }

  function Seen(walk: seq<Path>): set<Path> {
    set p | p in walk
  }

  ghost predicate Closed(done: set<Path>) {
    forall p, k | p in done && 0 < k < |p| :: p[..k] in done
  }

  lemma WalkedIsClosed(walk: seq<Path>, t: Tree, i: nat)
    requires IsWalk(walk, t) && i <= |walk|
    ensures Closed(Seen(walk[..i]))
  {
    forall p, k | p in Seen(walk[..i]) && 0 < k < |p|
      ensures p[..k] in Seen(walk[..i])
    {
      var j :| 0 <= j < i && walk[j] == p;
      assert walk[j][..k] in walk[..j];
      assert walk[..j] <= walk[..i];
    }
  }

  /** What overlay's walk does to the golden copy at one worktree entry. */
  function Put(to: Tree, rel: Path, node: Node): Tree {
    match node
    case Dir =>
      if rel !in to then to[rel := Dir]
      else if to[rel].Dir? then to // what the build put in it stays
      else RemoveAll(to, rel)[rel := Dir]
    case Symlink(_) => RemoveAll(to, rel)[rel := node]
    case File(_) => RemoveAll(to, rel)[rel := node]
    case Special => to
  }

  /** The directory rel is made in is there: Mkdir, Symlink and OpenFile fail
      without it. */
  predicate HasParent(to: Tree, rel: Path)
    requires rel != []
  {
    |rel| == 1 || (rel[..|rel|-1] in to && to[rel[..|rel|-1]].Dir?)
  }

  /** overlay: lays work over golden, entry by entry. */
  method Overlay(golden: Tree, work: Tree, walk: seq<Path>) returns (to: Tree)
    requires WellFormed(golden) && WellFormed(work) && IsWalk(walk, work)
    ensures to == Merge(golden, work)
  {
    to := golden;
    for i := 0 to |walk|
      invariant Seen(walk[..i]) <= work.Keys
      invariant to == Merged(golden, work, Seen(walk[..i]))
    {
      var rel := walk[i];
      ghost var done := Seen(walk[..i]);
      SeenNext(walk, work, i);
      ParentLaid(golden, work, done, rel);
      assert HasParent(to, rel);
      PutMerges(golden, work, done, rel);
      to := Put(to, rel, work[rel]);
    }
    assert walk[..|walk|] == walk;
    assert Seen(walk) == work.Keys;
  }

  lemma SeenNext(walk: seq<Path>, work: Tree, i: nat)
    requires IsWalk(walk, work) && i < |walk|
    ensures walk[i] !in Seen(walk[..i])
    ensures Seen(walk[..i+1]) == Seen(walk[..i]) + {walk[i]}
    ensures Closed(Seen(walk[..i])) && Closed(Seen(walk[..i]) + {walk[i]})
  {
    assert walk[..i+1] == walk[..i] + [walk[i]];
    WalkedIsClosed(walk, work, i);
    WalkedIsClosed(walk, work, i + 1);
  }

  lemma ParentLaid(golden: Tree, work: Tree, done: set<Path>, rel: Path)
    requires WellFormed(work) && done <= work.Keys && rel in work && Closed(done + {rel})
    ensures rel != [] && HasParent(Merged(golden, work, done), rel)
  {
    if |rel| > 1 {
      assert rel[..|rel|-1] in done + {rel};
    }
  }

  /** Laying one more entry down is one step of the declarative merge. */
  lemma PutMerges(golden: Tree, work: Tree, done: set<Path>, rel: Path)
    requires WellFormed(golden) && WellFormed(work) && done <= work.Keys && rel in work && rel !in done
    requires Closed(done)
    ensures Merged(golden, work, done + {rel}) == Put(Merged(golden, work, done), rel, work[rel])
  {
    BlockedGrows(work, done, rel);
    NothingBelow(golden, work, done, rel);
    if work[rel].Dir? {
      UnblockedDir(golden, work, done, rel);
      hide WellFormed, Closed, Blocked;
      PutDir(golden, work, done, rel);
    } else {
      hide WellFormed, Closed, Blocked;
      PutLeaf(golden, work, done, rel);
    }
  }

  lemma PutDir(golden: Tree, work: Tree, done: set<Path>, rel: Path)
    requires done <= work.Keys && rel in work && rel !in done && work[rel].Dir?
    requires forall p :: Blocked(work, done + {rel}, p) <==> Blocked(work, done, p) || (rel <= p && IsLeaf(work[rel]))
    requires var to := Merged(golden, work, done);
      forall q | q in to && rel <= q && q != rel :: rel in to && to[rel].Dir?
    ensures Merged(golden, work, done + {rel}) == Put(Merged(golden, work, done), rel, work[rel])
  {
    hide Blocked;
    var to, next := Merged(golden, work, done), Merged(golden, work, done + {rel});
    assert next == to[rel := Dir];
    assert rel in to && to[rel].Dir? ==> to == to[rel := Dir];
    assert !(rel in to && to[rel].Dir?) ==> RemoveAll(to, rel)[rel := Dir] == to[rel := Dir];
  }

  lemma PutLeaf(golden: Tree, work: Tree, done: set<Path>, rel: Path)
    requires done <= work.Keys && rel in work && rel !in done && !work[rel].Dir?
    requires forall p :: Blocked(work, done + {rel}, p) <==> Blocked(work, done, p) || (rel <= p && IsLeaf(work[rel]))
    requires forall q | q in done :: !(rel <= q)
    ensures Merged(golden, work, done + {rel}) == Put(Merged(golden, work, done), rel, work[rel])
  {
    hide Blocked;
    var to, next := Merged(golden, work, done), Merged(golden, work, done + {rel});
    assert IsLeaf(work[rel]) ==> next == RemoveAll(to, rel)[rel := work[rel]];
    assert !IsLeaf(work[rel]) ==> next == to;
  }

  lemma NothingBelow(golden: Tree, work: Tree, done: set<Path>, rel: Path)
    requires WellFormed(work) && done <= work.Keys && rel in work && rel !in done && Closed(done)
    ensures forall q | q in done :: !(rel <= q)
  {
    forall q | q in done ensures !(rel <= q) {
      PrefixSlice(rel, q);
    }
  }

  /** Below a directory of the worktree the golden tree is untouched so far. */
  lemma UnblockedDir(golden: Tree, work: Tree, done: set<Path>, rel: Path)
    requires WellFormed(golden) && WellFormed(work) && done <= work.Keys && rel in work && rel !in done
    requires work[rel].Dir? && forall q | q in done :: !(rel <= q)
    ensures var to := Merged(golden, work, done);
      forall q | q in to && rel <= q && q != rel :: rel in to && to[rel].Dir?
  {
    var to := Merged(golden, work, done);
    forall q | q in to && rel <= q && q != rel
      ensures rel in to && to[rel].Dir?
    {
      assert q[..|rel|] == rel;
      assert golden[rel].Dir?;
      assert !Blocked(work, done, rel);
    }
  }

  lemma BlockedGrows(work: Tree, done: set<Path>, rel: Path)
    requires done <= work.Keys && rel in work
    ensures forall p :: Blocked(work, done + {rel}, p) <==> Blocked(work, done, p) || (rel <= p && IsLeaf(work[rel]))
  {
    forall p | Blocked(work, done, p) || (rel <= p && IsLeaf(work[rel]))
      ensures Blocked(work, done + {rel}, p)
    {
      var q :| q in done + {rel} && q <= p && IsLeaf(work[q]);
    }
  }

  // ------------------------------------------------------------------ strip

  /** listSource: everything in a checkout that is no directory. */
  method ListSource(src: Tree, walk: seq<Path>) returns (list: seq<Path>)
    requires IsWalk(walk, src)
    ensures forall p :: p in list <==> p in src && !src[p].Dir?
    ensures forall i, j | 0 <= i < j < |list| :: list[i] != list[j]
  {
    list := [];
    for i := 0 to |walk|
      invariant forall p :: p in list <==> p in walk[..i] && !src[p].Dir?
      invariant forall j, k | 0 <= j < k < |list| :: list[j] != list[k]
    {
      assert walk[..i+1] == walk[..i] + [walk[i]];
      assert walk[i] !in walk[..i];
      if !src[walk[i]].Dir? {
        list := list + [walk[i]];
      }
    }
  }

  /** Where a path leads inside an os.Root: a directory, nowhere, or an error
      (a file on the way, or too many symlinks). */
  datatype Lookup = Folder(path: Path) | Gone | Refused

  function Resolve(t: Tree, dir: Path, rest: Path, hops: nat): Lookup
    decreases hops, |rest|
  {
    if rest == [] then Folder(dir)
    else
      var next := dir + [rest[0]];
      if next !in t then Gone
      else match t[next]
        case Dir => Resolve(t, next, rest[1..], hops)
        case Symlink(target) => if hops == 0 then Refused else Resolve(t, [], target + rest[1..], hops - 1)
        case _ => Refused
  }

  predicate IsEmptyDir(t: Tree, p: Path) {
    forall q | q in t :: !(p < q)
  }

  /** What Remove removes: all but a folder that isn't empty. */
  predicate Removable(t: Tree, p: Path) {
    p in t && (!t[p].Dir? || IsEmptyDir(t, p))
  }

  /** Root.Remove of one listed path, with the errors StripSource passes over
      (not there, not empty) and those that end it. An empty entry is skipped. */
  function StripOne(t: Tree, rel: Path, hops: nat): (bool, Tree) {
    if rel == [] then (true, t)
    else match Resolve(t, [], rel[..|rel|-1], hops)
    case Gone => (true, t)
    case Refused => (false, t)
    case Folder(dir) =>
      var p := dir + [rel[|rel|-1]];
      if Removable(t, p) then (true, t - {p}) else (true, t)
  }

  function Strip(t: Tree, list: seq<Path>, hops: nat): (bool, Tree) {
    if list == [] then (true, t)
    else
      var (ok, next) := StripOne(t, list[0], hops);
      if ok then Strip(next, list[1..], hops) else (false, next)
  }

  /** StripSource: removes what the last build copied in. */
  method StripSource(t: Tree, list: seq<Path>, hops: nat) returns (ok: bool, r: Tree)
    ensures (ok, r) == Strip(t, list, hops)
  {
    r := t;
    for i := 0 to |list|
      invariant Strip(t, list, hops) == Strip(r, list[i..], hops)
    {
      assert list[i..][1..] == list[i+1..];
      ok, r := StripOne(r, list[i], hops).0, StripOne(r, list[i], hops).1;
      if !ok {
        return;
      }
    }
    ok := true;
  }

  /** No folder on a listed path is a symlink. */
  ghost predicate NoLinkOnWay(t: Tree, rel: Path) {
    forall k | 0 < k < |rel| :: rel[..k] in t ==> !t[rel[..k]].Symlink?
  }

  /** Without symlinks on its way, a path leads to itself. */
  lemma {:induction false} ResolvePlain(t: Tree, rel: Path, k: nat, hops: nat)
    requires k < |rel| && NoLinkOnWay(t, rel)
    ensures Resolve(t, rel[..k], rel[k..|rel|-1], hops) in {Folder(rel[..|rel|-1]), Gone, Refused}
    ensures (forall j | k < j < |rel| :: rel[..j] in t && t[rel[..j]].Dir?)
      <==> Resolve(t, rel[..k], rel[k..|rel|-1], hops).Folder?
    ensures Resolve(t, rel[..k], rel[k..|rel|-1], hops).Refused? ==>
      exists j | k < j < |rel| :: rel[..j] in t && !t[rel[..j]].Dir?
    decreases |rel| - k
  {
    var rest := rel[k..|rel|-1];
    if rest == [] {
    } else {
      assert rel[..k] + [rest[0]] == rel[..k+1];
      assert rest[1..] == rel[k+1..|rel|-1];
      ResolvePlain(t, rel, k + 1, hops);
    }
  }

  lemma {:induction false} ResolveOver(t: Tree, rel: Path, k: nat, hops: nat)
    requires WellFormed(t) && k < |rel| && NoLinkOnWay(t, rel)
    requires exists j | k < j < |rel| :: rel[..j] in t && !t[rel[..j]].Dir?
    ensures Resolve(t, rel[..k], rel[k..|rel|-1], hops).Refused?
    decreases |rel| - k
  {
    var j :| k < j < |rel| && rel[..j] in t && !t[rel[..j]].Dir?;
    var rest := rel[k..|rel|-1];
    assert rel[..k] + [rest[0]] == rel[..k+1];
    assert rest[1..] == rel[k+1..|rel|-1];
    if j > k + 1 {
      assert rel[..j][..k+1] == rel[..k+1];
      ResolveOver(t, rel, k + 1, hops);
    }
  }

  /** A file stands where the path needs a folder. */
  ghost predicate OverFile(t: Tree, rel: Path) {
    exists j | 0 < j < |rel| :: rel[..j] in t && !t[rel[..j]].Dir?
  }

  lemma StripOneExact(t: Tree, rel: Path, hops: nat)
    requires WellFormed(t) && NoLinkOnWay(t, rel)
    ensures StripOne(t, rel, hops).1 == if rel in t && (!t[rel].Dir? || IsEmptyDir(t, rel)) then t - {rel} else t
    ensures !StripOne(t, rel, hops).0 <==> OverFile(t, rel)
  {
    if rel != [] {
      ResolvePlain(t, rel, 0, hops);
      assert rel[..0] == [] && rel[0..|rel|-1] == rel[..|rel|-1];
      assert rel[..|rel|-1] + [rel[|rel|-1]] == rel;
      if OverFile(t, rel) {
        ResolveOver(t, rel, 0, hops);
      }
    }
  }

  lemma RemoveKeepsTree(t: Tree, p: Path)
    requires WellFormed(t) && p in t && (!t[p].Dir? || IsEmptyDir(t, p))
    ensures WellFormed(t - {p})
  {
    forall q | q in t - {p} ensures forall k | 0 < k < |q| :: q[..k] in t - {p} {
      forall k | 0 < k < |q| ensures q[..k] in t - {p} {
        assert q[..k] in t && t[q[..k]].Dir?;
        assert q[..k] < q;
      }
    }
  }

  /** A file on listed path i's way is left by the paths listed before it. */
  ghost predicate OverFileLeft(t: Tree, list: seq<Path>, i: nat)
    requires i < |list|
  {
    exists j | 0 < j < |list[i]| :: list[i][..j] in t && !t[list[i][..j]].Dir? && list[i][..j] !in list[..i]
  }

  lemma OverFileNext(t: Tree, next: Tree, list: seq<Path>, i: nat)
    requires 0 < i < |list|
    requires next == if list[0] in t && (!t[list[0]].Dir? || IsEmptyDir(t, list[0])) then t - {list[0]} else t
    ensures OverFileLeft(t, list, i) <==> OverFileLeft(next, list[1..], i - 1)
  {
    assert list[1..][i-1] == list[i];
    assert list[..i] == [list[0]] + list[1..][..i-1];
  }

  /** What a strip leaves: a part of the tree that was there; every path not
      listed; of the listed paths, only directories. And it fails if and only if
      a file that isn't removed before stands on a listed path's way. */
  lemma {:induction false} StripExact(t: Tree, list: seq<Path>, hops: nat)
    requires WellFormed(t)
    requires forall i | 0 <= i < |list| :: NoLinkOnWay(t, list[i])
    ensures var (ok, r) := Strip(t, list, hops);
      && WellFormed(r)
      && (forall p | p in r :: p in t && r[p] == t[p])
      && (forall p | p in t && p !in list :: p in r)
      && (ok ==> forall p | p in list && p in r :: r[p].Dir? && !IsEmptyDir(t, p))
      && (!ok <==> exists i | 0 <= i < |list| :: OverFileLeft(t, list, i))
  {
    if list == [] {
    } else {
      var rel := list[0];
      var (ok, next) := StripOne(t, rel, hops);
      StripOneExact(t, rel, hops);
      if rel in t && (!t[rel].Dir? || IsEmptyDir(t, rel)) {
        RemoveKeepsTree(t, rel);
      }
      if ok {
        assert forall i | 0 <= i < |list[1..]| :: list[1..][i] == list[i+1];
        StripExact(next, list[1..], hops);
        assert list == [rel] + list[1..];
        forall i | 0 < i < |list| ensures OverFileLeft(t, list, i) <==> OverFileLeft(next, list[1..], i - 1) {
          OverFileNext(t, next, list, i);
        }
        var rest := list[1..];
        if i :| 0 <= i < |rest| && OverFileLeft(next, rest, i) {
          assert OverFileLeft(t, list, i + 1);
        }
        if i :| 0 <= i < |list| && OverFileLeft(t, list, i) {
          assert i > 0;
          assert OverFileLeft(next, rest, i - 1);
        }
      } else {
        assert OverFileLeft(t, list, 0);
      }
    }
  }

  /** A build and its strip: whatever the build made of the checkout it was
      given, all it made elsewhere is left, and of the checkout's files exactly
      those it replaced with a folder that isn't empty. */
  lemma BuildOutputKept(src: Tree, built: Tree, list: seq<Path>, hops: nat)
    requires WellFormed(src) && WellFormed(built)
    requires forall p :: p in list <==> p in src && !src[p].Dir?
    requires forall i | 0 <= i < |list| :: NoLinkOnWay(built, list[i])
    requires Strip(built, list, hops).0
    ensures var golden := Strip(built, list, hops).1;
      && (forall p | p in golden && p in src && !src[p].Dir? :: golden[p].Dir?)
      && (forall p | p in built && (p !in src || src[p].Dir?) :: p in golden && golden[p] == built[p])
      && (forall p | p in list :: p in golden <==> p in built && built[p].Dir? && !IsEmptyDir(built, p))
  {
    StripExact(built, list, hops);
    var golden := Strip(built, list, hops).1;
    forall p | p in list && p in built && built[p].Dir? && !IsEmptyDir(built, p) ensures p in golden {
      var q :| q in built && p < q;
      AncestorIsDir(src, p, q);
      AncestorIsDir(golden, p, q);
    }
  }

  /** So a folder the build made in a file's place goes with the file if it is
      empty. */
  lemma EmptyFolderStripped(hops: nat)
    ensures var src: Tree := map[["x"] := File("source")];
      var built: Tree := map[["x"] := Dir];
      && (forall p :: p in [["x"]] <==> p in src && !src[p].Dir?)
      && Strip(built, [["x"]], hops) == (true, map[])
  {
    var built: Tree := map[["x"] := Dir];
    assert Resolve(built, [], [], hops) == Folder([]);
    assert ["x"][..0] == [] && [] + ["x"] == ["x"];
    assert built - {["x"]} == map[];
    assert StripOne(built, ["x"], hops) == (true, map[]);
    assert [["x"]][1..] == [];
  }

  /** A step of a strip removes something else than the path listed if and only
      if a folder on the way is a symlink now, and the way through it leads to
      a folder with something to remove by that name. */
  lemma StripsOther(t: Tree, rel: Path, hops: nat)
    requires WellFormed(t) && rel != []
    ensures var way := Resolve(t, [], rel[..|rel|-1], hops);
      (exists p | p in t && p != rel :: p !in StripOne(t, rel, hops).1) <==>
      !NoLinkOnWay(t, rel) && way.Folder? && Removable(t, way.path + [rel[|rel|-1]])
  {
    var way := Resolve(t, [], rel[..|rel|-1], hops);
    if NoLinkOnWay(t, rel) {
      StripOneExact(t, rel, hops);
    } else {
      var k :| 0 < k < |rel| && rel[..k] in t && t[rel[..k]].Symlink?;
      AncestorIsDir(t, rel[..k], rel);
      if way.Folder? && Removable(t, way.path + [rel[|rel|-1]]) {
        var p := way.path + [rel[|rel|-1]];
        assert p in t && p != rel && p !in StripOne(t, rel, hops).1;
      }
    }
  }

  /** With a folder that became a symlink, a strip reaches past the list: it
      removes a file the build made and no list names. */
  lemma LinkedFolderStripsOther(hops: nat)
    requires hops > 0
    ensures var t: Tree := map[["d"] := Symlink(["out"]), ["out"] := Dir, ["out", "x"] := File("made")];
      && WellFormed(t)
      && Strip(t, [["d", "x"]], hops) == (true, t - {["out", "x"]})
  {
    var t: Tree := map[["d"] := Symlink(["out"]), ["out"] := Dir, ["out", "x"] := File("made")];
    forall p, k | p in t && 0 < k < |p| ensures p[..k] in t && t[p[..k]].Dir? {
      assert p == ["out", "x"] && p[..k] == ["out"];
    }
    assert ["d", "x"][..1] == ["d"] && [] + ["d"] == ["d"];
    assert Resolve(t, [], ["d"], hops) == Resolve(t, [], ["out"], hops - 1) by {
      assert ["out"] + ["d"][1..] == ["out"];
    }
    assert Resolve(t, [], ["out"], hops - 1) == Folder(["out"]) by {
      assert [] + ["out"] == ["out"];
      assert ["out"][1..] == [];
    }
    assert ["out"] + ["x"] == ["out", "x"];
    assert StripOne(t, ["d", "x"], hops) == (true, t - {["out", "x"]});
    assert [["d", "x"]][1..] == [];
  }
}
