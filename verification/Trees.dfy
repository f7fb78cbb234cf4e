/** File trees: what a workspace, a worktree or a snapshot holds.
    A tree maps the paths below its root to what stands there; the root
    itself, [], is a directory and is not listed. */
module Trees {

  type Path = seq<string>

  /** Special is a socket, a pipe or a device. A symlink's target is the path
      it names, counted from the root of the tree. */
  datatype Node = File(data: string) | Symlink(target: Path) | Dir | Special

  type Tree = map<Path, Node>

  const EMPTY: Tree := map[]

  predicate IsLeaf(n: Node) {
    n.File? || n.Symlink?
  }

  /** Every entry stands in a directory. */
  ghost predicate WellFormed(t: Tree) {
    forall p | p in t :: p != [] && forall k | 0 < k < |p| :: p[..k] in t && t[p[..k]].Dir?
  }

  /** os.RemoveAll and Root.RemoveAll: the entry and all below it. */
  function RemoveAll(t: Tree, p: Path): Tree {
    map q | q in t && !(p <= q) :: t[q]
  }

  /** t holds every regular file and symlink of work, with its contents, at
      its path. */
  ghost predicate HoldsWork(t: Tree, work: Tree) {
    forall p | p in work && IsLeaf(work[p]) :: p in t && t[p] == work[p]
  }

  /** The declarative merge of worktree entries over a golden tree, with only
      the entries in done laid down: those of the worktree win, and a golden
      entry stays unless a worktree file or symlink stands on its way. */
  function Merged(golden: Tree, work: Tree, done: set<Path>): Tree
    requires done <= work.Keys
  {
    map p | p in golden.Keys + done && (Laid(work, done, p) || (p in golden && !Blocked(work, done, p)))
      :: if Laid(work, done, p) then work[p] else golden[p]
  }

  predicate Laid(work: Tree, done: set<Path>, p: Path)
    requires done <= work.Keys
  {
    p in done && !work[p].Special?
  }

  predicate Blocked(work: Tree, done: set<Path>, p: Path)
    requires done <= work.Keys
  {
    exists q | q in done :: q <= p && IsLeaf(work[q])
  }

  function Merge(golden: Tree, work: Tree): Tree {
    Merged(golden, work, work.Keys)
  }

  /** The merge keeps all of the worktree's work. */
  lemma MergeHoldsWork(golden: Tree, work: Tree)
    ensures HoldsWork(Merge(golden, work), work)
  {
  }

  /** The merge of two trees is a tree. */
  lemma MergeWellFormed(golden: Tree, work: Tree)
    requires WellFormed(golden) && WellFormed(work)
    ensures WellFormed(Merge(golden, work))
  {
    var m := Merge(golden, work);
    forall p | p in m
      ensures p != [] && forall k | 0 < k < |p| :: p[..k] in m && m[p[..k]].Dir?
    {
      forall k | 0 < k < |p| ensures p[..k] in m && m[p[..k]].Dir? {
        AncestorMerged(golden, work, p, k);
      }
    }
  }

  lemma AncestorMerged(golden: Tree, work: Tree, p: Path, k: nat)
    requires WellFormed(golden) && WellFormed(work) && p in Merge(golden, work) && 0 < k < |p|
    ensures var m := Merge(golden, work); p[..k] in m && m[p[..k]].Dir?
  {
    var a := p[..k];
    if Laid(work, work.Keys, p) {
      assert a in work && work[a].Dir?;
    } else {
      assert a in golden && golden[a].Dir?;
      if a in work {
        assert a <= p;
        assert !IsLeaf(work[a]);
      }
      assert !Blocked(work, work.Keys, a);
    }
  }

  lemma PrefixSlice(a: Path, b: Path)
    ensures a <= b ==> b[..|a|] == a
    ensures b[..|b|] == b
  {
  }

  lemma AncestorIsDir(t: Tree, p: Path, q: Path)
    requires WellFormed(t) && p != [] && p < q
    ensures q in t ==> p in t && t[p].Dir?
  {
    assert p == q[..|p|];
  }
}
