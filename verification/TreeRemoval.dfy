/** Recursive removal of a request directory through anchored handles. */
module TreeRemoval {
  import opened SetSizes

  type Location = seq<string>

  /** A link's target is data: nothing here ever follows it. */
  datatype Node = Directory(identity: nat) | Link(target: Location) | Plain

  type Tree = map<Location, Node>

  predicate Below(dir: Location, p: Location) {
    |dir| < |p| && p[..|dir|] == dir
  }

  predicate AtOrBelow(dir: Location, p: Location) {
    p == dir || Below(dir, p)
  }

  predicate IsDirectory(tree: Tree, p: Location) {
    p in tree && tree[p].Directory?
  }

  /** Every entry lies in a directory, up to the root directory. */
  predicate Rooted(tree: Tree) {
    && IsDirectory(tree, [])
    && forall p <- tree :: |p| > 0 ==> IsDirectory(tree, p[..|p| - 1])
  }

  function Subtree(tree: Tree, dir: Location): set<Location> {
    set p <- tree | Below(dir, p)
  }

  function Children(tree: Tree, dir: Location): set<Location> {
    set p <- tree | |p| == |dir| + 1 && Below(dir, p)
  }

  /** What a removal under `dir` may do: drop entries below it, and nothing else anywhere. */
  ghost predicate Pruned(before: Tree, after: Tree, dir: Location) {
    && Rooted(after)
    && (forall p <- after :: p in before && after[p] == before[p])
    && (forall p <- before :: !Below(dir, p) ==> p in after)
  }

  /** The subtree at `dir` is gone and nothing else is. */
  ghost predicate Gone(before: Tree, after: Tree, dir: Location) {
    after == map p <- before | !AtOrBelow(dir, p) :: before[p]
  }

  /** The subtree at `from` is at `to` now and nothing else has changed. */
  ghost predicate Moved(before: Tree, after: Tree, from: Location, to: Location) {
    forall p: Location :: MovedAt(before, after, from, to, p)
  }

  ghost predicate MovedAt(before: Tree, after: Tree, from: Location, to: Location, p: Location) {
    if AtOrBelow(from, p) then p !in after
    else SameEntry(after, p, before, Shift(p, to, from))
  }

  /** Where an entry gets to when `from` becomes `to`. */
  function Shift(p: Location, from: Location, to: Location): Location {
    if AtOrBelow(from, p) then to + p[|from|..] else p
  }

  predicate SameEntry(tree: Tree, p: Location, other: Tree, q: Location) {
    (p in tree <==> q in other) && (p in tree ==> tree[p] == other[q])
  }

  /** Nothing at or below any other place than `places` is different. */
  ghost predicate SameOutside(before: Tree, after: Tree, places: set<Location>) {
    forall p: Location :: (forall dir <- places :: !AtOrBelow(dir, p)) ==> SameEntry(after, p, before, p)
  }

  predicate Beside(from: Location, to: Location) {
    0 < |from| == |to| && from != to && from[..|from| - 1] == to[..|to| - 1]
  }

  lemma BelowTrans(a: Location, b: Location, c: Location)
    requires Below(a, b) && AtOrBelow(b, c)
    ensures Below(a, c)
  {
  }

  /** An entry below a directory lies at or below one of its children. */
  lemma {:induction false} ChildOnTheWay(tree: Tree, dir: Location, p: Location)
    requires Rooted(tree) && p in tree && Below(dir, p)
    ensures p[..|dir| + 1] in Children(tree, dir) && AtOrBelow(p[..|dir| + 1], p)
    decreases |p|
  {
    if |p| == |dir| + 1 {
      assert p[..|dir| + 1] == p;
    } else {
      var parent := p[..|p| - 1];
      assert parent[..|dir|] == p[..|dir|];
      assert parent[..|dir| + 1] == p[..|dir| + 1];
      ChildOnTheWay(tree, dir, parent);
    }
  }

  lemma EmptyWithoutChildren(tree: Tree, dir: Location)
    requires Rooted(tree) && Children(tree, dir) == {}
    ensures Subtree(tree, dir) == {}
  {
    forall p <- tree | Below(dir, p)
      ensures false
    {
      ChildOnTheWay(tree, dir, p);
    }
  }

  class FileSystem {
    var tree: Tree
    /** How often something went wrong: a failed system call or check, or a cancellation. */
    ghost var faults: nat

    /** Nothing has gone wrong since. */
    twostate predicate Faultless()
      reads this`faults
    {
      faults == old(faults)
    }

    /** Does the next thing that can go wrong go wrong? */
    method Fault() returns (fault: bool)
      modifies this`faults
      ensures faults == old(faults) + if fault then 1 else 0
    {
      fault := *;
      if fault {
        faults := faults + 1;
      }
    }

    /** The single-entry removal of the operating system: it never removes a directory with entries. */
    method RemoveEntry(p: Location) returns (ok: bool)
      requires Rooted(tree) && |p| > 0
      modifies this
      ensures tree == if ok then old(tree) - {p} else old(tree)
      ensures ok ==> p in old(tree) && Subtree(tree, p) == {} && Subtree(old(tree), p) == {}
      ensures old(faults) <= faults
      ensures Faultless() && p in old(tree) && (old(tree)[p].Directory? ==> Subtree(old(tree), p) == {}) ==> ok
    {
      var fault := Fault();
      ok := !fault;
      if p !in tree || (tree[p].Directory? && Subtree(tree, p) != {}) {
        ok := false;
      }
      if ok {
        NoEntriesUnderLeaf(tree, p);
        tree := tree - {p};
      }
    }

    method MakeDirectory(p: Location, identity: nat) returns (ok: bool)
      requires Rooted(tree) && |p| > 0 && IsDirectory(tree, p[..|p| - 1])
      modifies this
      ensures Rooted(tree) && tree == if ok then old(tree)[p := Directory(identity)] else old(tree)
      ensures ok ==> p !in old(tree)
      ensures old(faults) <= faults && (Faultless() && p !in old(tree) ==> ok)
    {
      var fault := Fault();
      ok := !fault && p !in tree;
      if ok {
        tree := tree[p := Directory(identity)];
      }
    }

    /** Renames a directory within its parent, never over an existing name. */
    method RenameDirectory(from: Location, to: Location) returns (ok: bool)
      requires Rooted(tree) && IsDirectory(tree, from) && Beside(from, to)
      modifies this
      ensures Rooted(tree) && (ok ==> to !in old(tree) && Moved(old(tree), tree, from, to))
      ensures !ok ==> tree == old(tree)
      ensures old(faults) <= faults && (Faultless() && to !in old(tree) ==> ok)
    {
      var fault := Fault();
      ok := !fault && to !in tree;
      if ok {
        ghost var before := tree;
        var keys := set p <- tree :: Shift(p, from, to);
        NothingBelow(tree, to);
        forall p <- tree
          ensures Shift(Shift(p, from, to), to, from) == p
        {
          ShiftBack(p, from, to);
        }
        tree := map q <- keys :: tree[Shift(q, to, from)];
        RenamedIsMoved(before, tree, keys, from, to);
        MovedStaysRooted(before, tree, from, to);
      }
    }

    /** Removes everything below `dir`; any failure or a cancelled context stops it. */
    method RemoveContents(dir: Location) returns (ok: bool)
      requires Rooted(tree) && IsDirectory(tree, dir)
      modifies this
      ensures Pruned(old(tree), tree, dir)
      ensures ok ==> Subtree(tree, dir) == {}
      ensures old(faults) <= faults && (Faultless() ==> ok)
      decreases |Subtree(tree, dir)|, 1
    {
      var unread := Fault();
      if unread {
        return false;
      }
      ok := true;
      var listed := Children(tree, dir);
      while listed != {}
        invariant Pruned(old(tree), tree, dir)
        invariant listed <= Children(old(tree), dir)
        invariant Children(tree, dir) <= listed
        invariant ok && old(faults) <= faults
        decreases |listed|
      {
        var entry :| entry in listed;
        listed := listed - {entry};
        var stopped := Fault();
        if stopped {
          return false;
        }
        if entry in tree {
          SmallerBelow(old(tree), tree, dir, entry);
          ok := RemoveChild(dir, entry);
          if !ok {
            return;
          }
        }
      }
      EmptyWithoutChildren(tree, dir);
    }

    /** Removes one listed entry of `dir`, with everything below it. */
    method RemoveChild(dir: Location, entry: Location) returns (ok: bool)
      requires Rooted(tree) && entry in tree && Below(dir, entry)
      modifies this
      ensures Pruned(old(tree), tree, dir)
      ensures ok ==> entry !in tree
      ensures old(faults) <= faults && (Faultless() ==> ok)
      decreases |Subtree(tree, entry)|, 3
    {
      if tree[entry].Directory? {
        ok := RemoveOpened(dir, entry);
      } else {
        ok := RemoveEntry(entry);
      }
    }

    /** Empties a directory and then removes its name, if the name still shows that directory. */
    method RemoveOpened(parent: Location, dir: Location) returns (ok: bool)
      requires Rooted(tree) && IsDirectory(tree, dir) && Below(parent, dir)
      modifies this
      ensures Pruned(old(tree), tree, parent)
      ensures forall p <- old(tree) :: !AtOrBelow(dir, p) ==> p in tree
      ensures ok ==> Gone(old(tree), tree, dir)
      ensures !ok ==> Pruned(old(tree), tree, dir)
      ensures old(faults) <= faults && (Faultless() ==> ok)
      decreases |Subtree(tree, dir)|, 2
    {
      hide Pruned, Gone, Rooted;
      ghost var before := tree;
      DirectoryStays(before, dir);
      ok := RemoveContents(dir);
      ghost var emptied := tree;
      PrunedFurtherUp(before, emptied, parent, dir);
      if ok {
        var changed := Fault();
        ok := !changed;
      }
      if ok {
        ok := RemoveEntry(dir);
        if ok {
          EmptiedThenGone(before, emptied, parent, dir);
        }
      }
    }
  }

  /** Nothing lies below a place where nothing is. */
  lemma {:induction false} NothingBelow(tree: Tree, dir: Location)
    requires Rooted(tree) && dir !in tree
    ensures forall p <- tree :: !AtOrBelow(dir, p)
  {
    forall p <- tree | Below(dir, p)
      ensures false
    {
      AncestorIsThere(tree, dir, p);
    }
  }

  lemma {:induction false} AncestorIsThere(tree: Tree, dir: Location, p: Location)
    requires Rooted(tree) && p in tree && AtOrBelow(dir, p)
    ensures dir in tree
    decreases |p|
  {
    if p != dir {
      var parent := p[..|p| - 1];
      assert parent[..|dir|] == p[..|dir|];
      assert AtOrBelow(dir, parent) by { assert |parent| == |dir| ==> parent == dir; }
      AncestorIsThere(tree, dir, parent);
    }
  }

  lemma ShiftBack(p: Location, from: Location, to: Location)
    requires Beside(from, to) && !AtOrBelow(to, p)
    ensures Shift(Shift(p, from, to), to, from) == p
    ensures AtOrBelow(to, Shift(p, from, to)) <==> AtOrBelow(from, p)
    ensures !AtOrBelow(from, Shift(p, from, to))
  {
    if AtOrBelow(from, p) {
      var moved := to + p[|from|..];
      assert moved[..|to|] == to && moved[|to|..] == p[|from|..];
      assert p == from + p[|from|..];
      assert AtOrBelow(to, moved) by { assert |moved| == |to| ==> moved == to; }
      assert moved[..|from|] == to;
    }
  }

  lemma RenamedIsMoved(before: Tree, after: Tree, keys: set<Location>, from: Location, to: Location)
    requires Beside(from, to) && keys == (set p <- before :: Shift(p, from, to))
    requires forall p <- before :: !AtOrBelow(to, p)
    requires forall q <- keys :: Shift(q, to, from) in before
    requires after == map q <- keys :: before[Shift(q, to, from)]
    ensures Moved(before, after, from, to)
  {
    forall p: Location
      ensures MovedAt(before, after, from, to, p)
    {
      if p in after {
        var was :| was in before && p == Shift(was, from, to);
        ShiftBack(was, from, to);
      } else if !AtOrBelow(from, p) && Shift(p, to, from) in before {
        ShiftForth(p, from, to);
      }
    }
  }

  lemma ShiftForth(p: Location, from: Location, to: Location)
    requires Beside(from, to) && !AtOrBelow(from, p)
    ensures Shift(Shift(p, to, from), from, to) == p
  {
    ShiftBack(p, to, from);
  }

  lemma MovedStaysRooted(before: Tree, after: Tree, from: Location, to: Location)
    requires Rooted(before) && IsDirectory(before, from) && Beside(from, to) && Moved(before, after, from, to)
    ensures Rooted(after)
  {
    assert MovedAt(before, after, from, to, []);
    forall p <- after | |p| > 0
      ensures IsDirectory(after, p[..|p| - 1])
    {
      var parent := p[..|p| - 1];
      assert MovedAt(before, after, from, to, p) && MovedAt(before, after, from, to, parent);
      MovedParent(p, from, to);
    }
  }

  lemma MovedParent(p: Location, from: Location, to: Location)
    requires |p| > 0 && Beside(from, to) && !AtOrBelow(from, p)
    ensures !AtOrBelow(from, p[..|p| - 1])
    ensures |Shift(p, to, from)| == |p| && Shift(p[..|p| - 1], to, from) == Shift(p, to, from)[..|p| - 1]
  {
    var parent := p[..|p| - 1];
    BelowParent(from, p);
    BelowParent(to, p);
    if AtOrBelow(to, p) {
      var was := from + p[|to|..];
      if p == to {
        assert !AtOrBelow(to, parent);
        assert was == from;
      } else {
        assert parent[..|to|] == p[..|to|];
        assert AtOrBelow(to, parent) by { assert |parent| == |to| ==> parent == to; }
        assert was[..|p| - 1] == from + parent[|to|..];
      }
    }
  }

  lemma BelowParent(dir: Location, p: Location)
    requires |p| > 0
    ensures AtOrBelow(dir, p[..|p| - 1]) ==> AtOrBelow(dir, p)
  {
    if |dir| < |p| {
      assert p[..|p| - 1][..|dir|] == p[..|dir|];
    }
  }

  /** Moving a subtree and removing it there is removing it. */
  lemma MovedThenGone(before: Tree, moved: Tree, after: Tree, from: Location, to: Location)
    requires Rooted(before) && Beside(from, to) && to !in before
    requires Moved(before, moved, from, to) && Gone(moved, after, to)
    ensures Gone(before, after, from)
  {
    NothingBelow(before, to);
    forall p: Location
      ensures p in after <==> p in before && !AtOrBelow(from, p)
      ensures p in after ==> after[p] == before[p]
    {
      assert MovedAt(before, moved, from, to, p);
    }
  }

  lemma MovedOutside(before: Tree, after: Tree, from: Location, to: Location)
    requires Moved(before, after, from, to)
    ensures SameOutside(before, after, {from, to})
  {
    forall p: Location | !AtOrBelow(from, p) && !AtOrBelow(to, p)
      ensures SameEntry(after, p, before, p)
    {
      assert MovedAt(before, after, from, to, p);
    }
  }

  lemma RemovedOutside(before: Tree, after: Tree, dir: Location, places: set<Location>)
    requires dir in places && (Gone(before, after, dir) || Pruned(before, after, dir))
    ensures SameOutside(before, after, places)
  {
  }

  lemma OutsideChains(a: Tree, b: Tree, c: Tree, places: set<Location>)
    requires SameOutside(a, b, places) && SameOutside(b, c, places)
    ensures SameOutside(a, c, places)
  {
    forall p: Location | forall dir <- places :: !AtOrBelow(dir, p)
      ensures SameEntry(c, p, a, p)
    {
      assert SameEntry(b, p, a, p) && SameEntry(c, p, b, p);
    }
  }

  lemma DirectoryStays(before: Tree, dir: Location)
    requires Rooted(before) && IsDirectory(before, dir)
    ensures forall after | Pruned(before, after, dir) :: Rooted(after) && dir in after && after[dir] == before[dir]
  {
  }

  lemma PrunedFurtherUp(before: Tree, after: Tree, parent: Location, dir: Location)
    requires Pruned(before, after, dir) && Below(parent, dir)
    ensures Pruned(before, after, parent)
    ensures forall p <- before :: !AtOrBelow(dir, p) ==> p in after
  {
  }

  lemma OnlyItself(emptied: Tree, dir: Location)
    requires Subtree(emptied, dir) == {}
    ensures forall p <- emptied | AtOrBelow(dir, p) :: p == dir
  {
    forall p <- emptied | AtOrBelow(dir, p)
      ensures p == dir
    {
      assert p != dir ==> p in Subtree(emptied, dir);
    }
  }

  lemma EmptiedThenGone(before: Tree, emptied: Tree, parent: Location, dir: Location)
    requires Pruned(before, emptied, dir) && Below(parent, dir) && Subtree(emptied, dir) == {} && dir in emptied
    ensures Pruned(before, emptied - {dir}, parent) && Gone(before, emptied - {dir}, dir)
    ensures forall p <- before :: !AtOrBelow(dir, p) ==> p in emptied - {dir}
  {
    hide Rooted, Subtree;
    OnlyItself(emptied, dir);
    StillRooted(emptied, dir);
    var after := emptied - {dir};
    forall p
      ensures p in after <==> p in before && !AtOrBelow(dir, p)
    {
      assert !AtOrBelow(dir, p) ==> !Below(dir, p) && p != dir;
    }
  }

  lemma StillRooted(emptied: Tree, dir: Location)
    requires Rooted(emptied) && |dir| > 0 && forall p <- emptied | AtOrBelow(dir, p) :: p == dir
    ensures Rooted(emptied - {dir})
  {
  }

  lemma NoEntriesUnderLeaf(tree: Tree, p: Location)
    requires Rooted(tree) && p in tree
    requires tree[p].Directory? ==> Subtree(tree, p) == {}
    ensures Subtree(tree, p) == {} && Subtree(tree - {p}, p) == {}
  {
    if !tree[p].Directory? {
      assert Children(tree, p) == {} by {
        forall q <- tree | |q| == |p| + 1
          ensures !Below(p, q)
        {
          assert q[..|q| - 1] == q[..|p|];
        }
      }
      EmptyWithoutChildren(tree, p);
    }
  }

  lemma SmallerBelow(before: Tree, tree: Tree, dir: Location, entry: Location)
    requires Pruned(before, tree, dir) && entry in before && Below(dir, entry)
    ensures |Subtree(tree, entry)| < |Subtree(before, dir)|
  {
    forall p <- Subtree(tree, entry)
      ensures p in Subtree(before, dir) && p != entry
    {
      BelowTrans(dir, entry, p);
    }
    SubsetIsNoLarger(Subtree(tree, entry), Subtree(before, dir) - {entry});
  }
}
