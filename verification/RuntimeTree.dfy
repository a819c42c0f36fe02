/** The runtime root's directory as a tree: the names the root works on are its first level. */
module RuntimeTree {
  import opened RuntimeRoot
  import T = TreeRemoval

  type Names = map<EntryName, Entry>

  const REQUEST_PREFIX := "request-"
  const QUARANTINE_PREFIX := "quarantine-"

  /** The name of an entry of the root directory, as a place in the tree. */
  function NameAt(n: EntryName): (p: T.Location)
    ensures |p| == 1
  {
    match n
    case Request(id) => [REQUEST_PREFIX + id]
    case Quarantine(id) => [QUARANTINE_PREFIX + id]
    case Other(name) => [name]
  }

  /** The two places the directory of a record can be at. */
  function Places(id: Id): set<T.Location> {
    {NameAt(Request(id)), NameAt(Quarantine(id))}
  }

  /** A name of one of the two closed namespaces is never read as another one. */
  ghost predicate Proper(n: EntryName) {
    n.Other? ==> forall m: EntryName | InNamespace(m) :: NameAt(m) != [n.name]
  }

  /** The prefixes tell the namespaces apart, and what follows is the id. */
  lemma NameParts(n: EntryName)
    ensures n.Request? ==> |NameAt(n)[0]| >= 8 && NameAt(n)[0][0] == 'r' && NameAt(n)[0][8..] == n.id
    ensures n.Quarantine? ==> |NameAt(n)[0]| >= 11 && NameAt(n)[0][0] == 'q' && NameAt(n)[0][11..] == n.id
  {
  }

  lemma Apart(n: EntryName, m: EntryName)
    requires InNamespace(n) && Proper(m) && NameAt(n) == NameAt(m)
    ensures n == m
  {
    NameParts(n);
    NameParts(m);
  }

  ghost predicate MirrorsEntry(entry: Entry, node: T.Node) {
    match entry
    case Directory(identity) => node == T.Directory(identity)
    case NoDirectory => !node.Directory?
  }

  ghost predicate MirrorsName(names: Names, tree: T.Tree, n: EntryName)
    requires n in names
  {
    NameAt(n) in tree && MirrorsEntry(names[n], tree[NameAt(n)]) && Proper(n)
  }

  /** The names the root keeps track of are the first level of the tree. */
  ghost predicate Mirrors(names: Names, tree: T.Tree) {
    && (forall n <- names :: MirrorsName(names, tree, n))
    && (forall n <- names, m <- names :: NameAt(n) == NameAt(m) ==> n == m)
    && (forall p <- tree :: |p| == 1 ==> exists n <- names :: NameAt(n) == p)
  }

  lemma Mirrored(names: Names, tree: T.Tree, n: EntryName)
    requires Mirrors(names, tree)
    ensures n in names && names[n].Directory? ==> T.IsDirectory(tree, NameAt(n)) && T.Below([], NameAt(n))
    ensures InNamespace(n) && n !in names ==> NameAt(n) !in tree
  {
    if InNamespace(n) && NameAt(n) in tree {
      var m :| m in names && NameAt(m) == NameAt(n);
      assert MirrorsName(names, tree, m);
      Apart(n, m);
    } else if n in names {
      assert MirrorsName(names, tree, n);
    }
  }

  lemma TwoNames(p: T.Location, q: T.Location)
    requires |p| == |q| == 1
    ensures T.AtOrBelow(p, q) <==> p == q
    ensures p != q ==> T.Beside(p, q)
    ensures T.Below([], p)
  {
  }

  /** A new directory under a free name of a namespace. */
  lemma MadeMirrors(names: Names, tree: T.Tree, n: EntryName, identity: Identity)
    requires Mirrors(names, tree) && InNamespace(n) && n !in names
    ensures Mirrors(names[n := Directory(identity)], tree[NameAt(n) := T.Directory(identity)])
  {
    var names', tree' := names[n := Directory(identity)], tree[NameAt(n) := T.Directory(identity)];
    forall m <- names' | m != n
      ensures NameAt(m) != NameAt(n) && MirrorsName(names', tree', m)
    {
      assert MirrorsName(names, tree, m);
      if NameAt(m) == NameAt(n) {
        Apart(n, m);
      }
    }
    FirstLevelNamed(names, tree, names', tree', n, n);
  }

  lemma FirstLevelNamed(names: Names, tree: T.Tree, names': Names, tree': T.Tree, gone: EntryName, made: EntryName)
    requires Mirrors(names, tree)
    requires forall p <- tree' | |p| == 1 :: p == NameAt(made) || (p in tree && p != NameAt(gone))
    requires forall m <- names | m != gone :: m in names'
    requires NameAt(made) in tree' ==> made in names'
    ensures forall p <- tree' :: |p| == 1 ==> exists m <- names' :: NameAt(m) == p
  {
    forall p <- tree' | |p| == 1
      ensures exists m <- names' :: NameAt(m) == p
    {
      if p == NameAt(made) {
        assert made in names';
      } else {
        var m :| m in names && NameAt(m) == p;
        assert m in names';
      }
    }
  }

  lemma GoneMirrors(names: Names, n: EntryName, before: T.Tree, after: T.Tree)
    requires n in names && Mirrors(names, before) && T.Gone(before, after, NameAt(n))
    ensures Mirrors(names - {n}, after)
  {
    forall m <- names - {n}
      ensures MirrorsName(names - {n}, after, m)
    {
      assert MirrorsName(names, before, m);
      TwoNames(NameAt(n), NameAt(m));
    }
    assert NameAt(n) !in after by { assert T.AtOrBelow(NameAt(n), NameAt(n)); }
    FirstLevelNamed(names, before, names - {n}, after, n, n);
  }

  lemma PrunedMirrors(names: Names, n: EntryName, before: T.Tree, after: T.Tree)
    requires Mirrors(names, before) && T.Pruned(before, after, NameAt(n))
    ensures Mirrors(names, after)
  {
    forall m <- names
      ensures MirrorsName(names, after, m)
    {
      assert MirrorsName(names, before, m);
      assert !T.Below(NameAt(n), NameAt(m));
    }
  }

  /** A directory that moves to a free name of a namespace. */
  lemma MovedMirrors(names: Names, source: EntryName, target: EntryName, before: T.Tree, after: T.Tree)
    requires Mirrors(names, before) && source in names && InNamespace(target) && target !in names
    requires T.Moved(before, after, NameAt(source), NameAt(target))
    ensures Mirrors((names - {source})[target := names[source]], after)
  {
    hide T.Moved, NameAt, Proper, MirrorsEntry;
    var names', from, to := (names - {source})[target := names[source]], NameAt(source), NameAt(target);
    Mirrored(names, before, target);
    forall m <- names'
      ensures MirrorsName(names', after, m)
      ensures m != target ==> NameAt(m) != to
    {
      MovedName(names, source, target, before, after, m);
    }
    MovedFirstLevel(before, after, from, to);
    FirstLevelNamed(names, before, names', after, source, target);
  }

  lemma MovedFirstLevel(before: T.Tree, after: T.Tree, from: T.Location, to: T.Location)
    requires T.Moved(before, after, from, to) && |from| == |to| == 1
    ensures forall p <- after | |p| == 1 :: p == to || (p in before && p != from)
  {
    forall p <- after | |p| == 1
      ensures p == to || (p in before && p != from)
    {
      assert T.MovedAt(before, after, from, to, p);
      TwoNames(from, p);
      TwoNames(to, p);
    }
  }

  lemma MovedName(names: Names, source: EntryName, target: EntryName, before: T.Tree, after: T.Tree, m: EntryName)
    requires Mirrors(names, before) && source in names && InNamespace(target) && target !in names
    requires T.Moved(before, after, NameAt(source), NameAt(target)) && NameAt(target) !in before
    requires m == target || (m in names && m != source)
    ensures MirrorsName((names - {source})[target := names[source]], after, m) && (m != target ==> NameAt(m) != NameAt(target))
  {
    hide NameAt, Proper, MirrorsEntry;
    var from, to := NameAt(source), NameAt(target);
    assert MirrorsName(names, before, source);
    assert T.MovedAt(before, after, from, to, NameAt(m));
    TwoNames(from, NameAt(m));
    TwoNames(to, NameAt(m));
    if m == target {
      assert T.Shift(to, to, from) == from;
      NamespaceIsProper(target);
    } else {
      assert MirrorsName(names, before, m);
    }
  }

  lemma NamespaceIsProper(n: EntryName)
    ensures InNamespace(n) ==> Proper(n)
  {
  }

  /** What a removal that did not succeed has done, or one that was not tried. */
  lemma NothingPruned(tree: T.Tree, dir: T.Location)
    requires T.Rooted(tree)
    ensures T.Pruned(tree, tree, dir)
  {
  }

  lemma PrunedIsRooted(before: T.Tree, after: T.Tree, dir: T.Location)
    requires T.Pruned(before, after, dir)
    ensures T.Rooted(after)
  {
  }

  /**
   Removes the directory shown at `name` with everything in it. Success takes exactly that
   tree, and with the name dropped the names are the first level again; failure takes only
   entries inside it.
   */
  method RemoveTree(files: T.FileSystem, ghost names: Names, name: EntryName) returns (ok: bool)
    requires T.Rooted(files.tree) && Mirrors(names, files.tree) && name in names && names[name].Directory?
    modifies files
    ensures T.Rooted(files.tree) && Mirrors(if ok then names - {name} else names, files.tree)
    ensures if ok then T.Gone(old(files.tree), files.tree, NameAt(name)) else T.Pruned(old(files.tree), files.tree, NameAt(name))
    ensures old(files.faults) <= files.faults && (files.Faultless() ==> ok)
  {
    hide T.Gone, T.Pruned, T.Rooted, Mirrors, NameAt;
    ghost var before := files.tree;
    Mirrored(names, before, name);
    ok := files.RemoveOpened([], NameAt(name));
    PrunedIsRooted(before, files.tree, []);
    if ok {
      GoneMirrors(names, name, before, files.tree);
    } else {
      PrunedMirrors(names, name, before, files.tree);
    }
  }
}
