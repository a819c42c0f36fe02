/** Resolving the runtime root's parent: an absolute path is cleaned, then walked one component at a time. */
module PathResolve {
  /** The names below the root directory. */
  type Location = seq<string>

  /** Ownership and permissions: owned by root, writable by group or others, sticky. */
  datatype Mode = Mode(rootOwned: bool, othersWrite: bool, sticky: bool)

  /** A path already split at its separators: components may be empty, "." or "..". */
  datatype Path = Path(absolute: bool, parts: seq<string>)

  datatype Node = Dir(mode: Mode) | Link(mode: Mode, target: Path) | Other

  type Tree = map<Location, Node>

  datatype Failure = Relative | Missing | NotDirectory | Untrusted | TooManyLinks | Faulted

  /** Where a walk ends and how many links may still be followed. */
  datatype Reach = Reached(at: Location, left: nat) | Failed(why: Failure)

  const MAX_LINKS: nat := 40

  predicate Plain(name: string) {
    name != "" && name != "." && name != ".."
  }

  function Parent(at: Location): Location {
    if at == [] then [] else at[..|at| - 1]
  }

  predicate IsDir(t: Tree, at: Location) {
    at in t && t[at].Dir?
  }

  ghost predicate WellFormed(t: Tree) {
    && IsDir(t, [])
    && forall at :: at in t && at != [] ==> Plain(at[|at| - 1]) && IsDir(t, Parent(at))
  }

  lemma OneUp(t: Tree, at: Location)
    requires WellFormed(t) && at in t
    ensures IsDir(t, Parent(at)) && (at != [] ==> Plain(at[|at| - 1]))
  {
  }

  lemma RootIsDir(t: Tree)
    requires WellFormed(t)
    ensures IsDir(t, [])
  {
  }

  // ---- trust in a link ----

  /** A directory nobody but root can redirect. */
  predicate Guarded(t: Tree, at: Location) {
    IsDir(t, at) && t[at].mode.rootOwned && (!t[at].mode.othersWrite || t[at].mode.sticky)
  }

  ghost predicate TrustedLink(t: Tree, at: Location) {
    at in t && t[at].Link? && t[at].mode.rootOwned && forall k :: 0 <= k < |at| ==> Guarded(t, at[..k])
  }

  /** Unless `faultless`, the inspection of any ancestor may fail. */
  method ValidateAlias(t: Tree, at: Location, faultless: bool) returns (trusted: bool, faulted: bool)
    requires at in t && t[at].Link? && at != []
    ensures faulted ==> !faultless && !trusted
    ensures !faulted ==> (trusted <==> TrustedLink(t, at))
  {
    trusted, faulted := false, false;
    if !t[at].mode.rootOwned {
      return;
    }
    var ancestor := Parent(at);
    while true
      invariant |ancestor| < |at| && ancestor == at[..|ancestor|]
      invariant forall k :: |ancestor| < k < |at| ==> Guarded(t, at[..k])
      decreases |ancestor|
    {
      var unseen := *;
      if unseen && !faultless {
        faulted := true;
        return;
      }
      if !IsDir(t, ancestor) || !t[ancestor].mode.rootOwned {
        return;
      }
      if t[ancestor].mode.othersWrite && !t[ancestor].mode.sticky {
        return;
      }
      var parent := Parent(ancestor);
      if parent == ancestor {
        trusted := true;
        return;
      }
      assert parent == at[..|parent|];
      ancestor := parent;
    }
  }

  // ---- what a path names ----

  /**
   * The meaning of a relative path, read component by component: a link stands for whatever its whole
   * target names. `strict` also asks that every link be trusted.
   */
  ghost function Resolve(t: Tree, strict: bool, dir: Location, parts: seq<string>, left: nat): (r: Reach)
    ensures r.Reached? ==> r.left <= left
    decreases left, |parts|
  {
    if parts == [] then Reached(dir, left)
    else if parts[0] == ".." then Resolve(t, strict, Parent(dir), parts[1..], left)
    else if !Plain(parts[0]) then Resolve(t, strict, dir, parts[1..], left)
    else
      var child := dir + [parts[0]];
      if child !in t then Failed(Missing)
      else
        match t[child]
        case Other => Failed(NotDirectory)
        case Dir(_) => Resolve(t, strict, child, parts[1..], left)
        case Link(_, target) =>
          if strict && !TrustedLink(t, child) then Failed(Untrusted)
          else if left == 0 then Failed(TooManyLinks)
          else
            var inner := Resolve(t, strict, Start(dir, target), target.parts, left - 1);
            if inner.Failed? then inner else Resolve(t, strict, inner.at, parts[1..], inner.left)
  }

  /** Where a link's target is read from. */
  function Start(dir: Location, target: Path): Location {
    if target.absolute then [] else dir
  }

  ghost function Continue(t: Tree, strict: bool, r: Reach, parts: seq<string>): Reach {
    if r.Failed? then r else Resolve(t, strict, r.at, parts, r.left)
  }

  /** Reading one path after another is reading their concatenation. */
  lemma {:induction false} Compose(t: Tree, strict: bool, dir: Location, first: seq<string>, rest: seq<string>, left: nat)
    ensures Resolve(t, strict, dir, first + rest, left) == Continue(t, strict, Resolve(t, strict, dir, first, left), rest)
    decreases left, |first|
  {
    if first == [] {
      assert first + rest == rest;
    } else {
      assert (first + rest)[1..] == first[1..] + rest;
      var child := dir + [first[0]];
      if first[0] == ".." {
        Compose(t, strict, Parent(dir), first[1..], rest, left);
      } else if !Plain(first[0]) {
        Compose(t, strict, dir, first[1..], rest, left);
      } else if child in t && t[child].Dir? {
        Compose(t, strict, child, first[1..], rest, left);
      } else if child in t && t[child].Link? && left > 0 {
        var inner := Resolve(t, strict, Start(dir, t[child].target), t[child].target.parts, left - 1);
        if inner.Reached? {
          Compose(t, strict, inner.at, first[1..], rest, inner.left);
        }
      }
    }
  }

  /** A link is read where it is: a relative target from the directory that holds the link, an absolute one from the root. */
  lemma LinkReadWhereItIs(t: Tree, strict: bool, link: Location, left: nat)
    requires link in t && t[link].Link? && link != [] && Plain(link[|link| - 1]) && left > 0 && (strict ==> TrustedLink(t, link))
    ensures var holder, name, target := link[..|link| - 1], link[|link| - 1], t[link].target;
            Resolve(t, strict, holder, [name], left) == Resolve(t, strict, if target.absolute then [] else holder, target.parts, left - 1)
  {
    var holder, name := link[..|link| - 1], link[|link| - 1];
    assert holder + [name] == link && [name][1..] == [];
  }

  /** One turn: a link's target is read before what follows it, from where the target starts. */
  lemma ReadOne(t: Tree, dir: Location, parts: seq<string>, left: nat)
    requires parts != []
    ensures parts[0] == ".." ==> Resolve(t, true, dir, parts, left) == Resolve(t, true, Parent(dir), parts[1..], left)
    ensures parts[0] == "" || parts[0] == "." ==> Resolve(t, true, dir, parts, left) == Resolve(t, true, dir, parts[1..], left)
    ensures Plain(parts[0]) ==>
      var child := dir + [parts[0]];
      Resolve(t, true, dir, parts, left) ==
        if child !in t then Failed(Missing)
        else match t[child]
          case Other => Failed(NotDirectory)
          case Dir(_) => Resolve(t, true, child, parts[1..], left)
          case Link(_, target) =>
            if !TrustedLink(t, child) then Failed(Untrusted)
            else if left == 0 then Failed(TooManyLinks)
            else Resolve(t, true, Start(dir, target), target.parts + parts[1..], left - 1)
  {
    var child := dir + [parts[0]];
    if Plain(parts[0]) && child in t && t[child].Link? && left > 0 {
      var target := t[child].target;
      Compose(t, true, Start(dir, target), target.parts, parts[1..], left - 1);
    }
  }

  lemma NothingLeft(t: Tree, dir: Location, left: nat)
    ensures Resolve(t, true, dir, [], left) == Reached(dir, left)
  {
  }

  // ---- cleaning and walking ----

  /** Lexical cleaning of an absolute path: ".." drops the name before it, whatever that name is. */
  function CleanFrom(stack: Location, parts: seq<string>): Location
    decreases |parts|
  {
    if parts == [] then stack
    else if parts[0] == ".." then CleanFrom(Parent(stack), parts[1..])
    else if !Plain(parts[0]) then CleanFrom(stack, parts[1..])
    else CleanFrom(stack + [parts[0]], parts[1..])
  }

  function Clean(parts: seq<string>): Location {
    CleanFrom([], parts)
  }

  ghost function Canonical(t: Tree, path: Path): Reach {
    if !path.absolute then Failed(Relative) else Resolve(t, true, [], Clean(path.parts), MAX_LINKS)
  }

  /**
   * The loop that pushes a link's target in front of what is still to read ends with the directory
   * the path names, or with the first obstacle on the way. Unless `faultless`, any inspection may fail.
   */
  method Canonicalize(t: Tree, path: Path, faultless: bool) returns (r: Reach)
    requires WellFormed(t)
    ensures r == Canonical(t, path) || (r == Failed(Faulted) && !faultless)
  {
    hide Resolve, WellFormed, TrustedLink, CleanFrom;
    if !path.absolute {
      return Failed(Relative);
    }
    RootIsDir(t);
    var resolved: Location := [];
    var pending: seq<string> := Clean(path.parts);
    var symlinks := 0;
    while |pending| > 0
      invariant symlinks <= MAX_LINKS && IsDir(t, resolved)
      invariant Canonical(t, path) == Resolve(t, true, resolved, pending, MAX_LINKS - symlinks)
      decreases MAX_LINKS - symlinks, |pending|
    {
      var component := pending[0];
      ReadOne(t, resolved, pending, MAX_LINKS - symlinks);
      pending := pending[1..];
      if component == "" || component == "." {
        continue;
      }
      if component == ".." {
        OneUp(t, resolved);
        resolved := Parent(resolved);
        continue;
      }
      var candidate := resolved + [component];
      var fault := *;
      if fault && !faultless {
        return Failed(Faulted);
      }
      if candidate !in t {
        return Failed(Missing);
      }
      if !t[candidate].Link? {
        if !t[candidate].Dir? {
          return Failed(NotDirectory);
        }
        resolved := candidate;
        continue;
      }
      var trusted, unseen := ValidateAlias(t, candidate, faultless);
      if unseen {
        return Failed(Faulted);
      }
      if !trusted {
        return Failed(Untrusted);
      }
      if symlinks + 1 > MAX_LINKS {
        return Failed(TooManyLinks);
      }
      symlinks := symlinks + 1;
      var unread := *;
      if unread && !faultless {
        return Failed(Faulted);
      }
      var target := t[candidate].target;
      resolved := Start(resolved, target);
      pending := target.parts + pending;
    }
    NothingLeft(t, resolved, MAX_LINKS - symlinks);
    r := Reached(resolved, MAX_LINKS - symlinks);
  }

  // ---- what the result is worth ----

  /** A walk that starts in a directory ends in one. */
  lemma {:induction false} EndsInDirectory(t: Tree, strict: bool, dir: Location, parts: seq<string>, left: nat)
    requires WellFormed(t) && IsDir(t, dir)
    requires Resolve(t, strict, dir, parts, left).Reached?
    ensures IsDir(t, Resolve(t, strict, dir, parts, left).at)
    decreases left, |parts|
  {
    hide WellFormed, TrustedLink, Plain;
    RootIsDir(t);
    OneUp(t, dir);
    if parts != [] {
      var child := dir + [parts[0]];
      if parts[0] == ".." {
        EndsInDirectory(t, strict, Parent(dir), parts[1..], left);
      } else if !Plain(parts[0]) {
        EndsInDirectory(t, strict, dir, parts[1..], left);
      } else if t[child].Dir? {
        EndsInDirectory(t, strict, child, parts[1..], left);
      } else {
        var target := t[child].target;
        EndsInDirectory(t, strict, Start(dir, target), target.parts, left - 1);
        var inner := Resolve(t, strict, Start(dir, target), target.parts, left - 1);
        EndsInDirectory(t, strict, inner.at, parts[1..], inner.left);
      }
    }
  }

  /** Everything above a directory is a directory. */
  lemma {:induction false} DirectoriesAbove(t: Tree, at: Location, k: nat)
    requires WellFormed(t) && IsDir(t, at) && k <= |at|
    ensures IsDir(t, at[..k])
    decreases |at|
  {
    OneUp(t, at);
    hide WellFormed, IsDir;
    if k == |at| {
      assert at[..k] == at;
    } else {
      assert Parent(at)[..k] == at[..k];
      DirectoriesAbove(t, Parent(at), k);
    }
  }

  lemma DirectoryNames(t: Tree, at: Location)
    requires WellFormed(t) && IsDir(t, at)
    ensures forall i :: 0 <= i < |at| ==> Plain(at[i])
  {
    forall i | 0 <= i < |at|
      ensures Plain(at[i])
    {
      DirectoriesAbove(t, at, i + 1);
      OneUp(t, at[..i + 1]);
    }
  }

  /** Plain names through plain directories name themselves. */
  lemma {:induction false} DescendsDirectories(t: Tree, strict: bool, dir: Location, names: Location, left: nat)
    requires forall k :: 0 < k <= |names| ==> IsDir(t, dir + names[..k])
    requires forall i :: 0 <= i < |names| ==> Plain(names[i])
    ensures Resolve(t, strict, dir, names, left) == Reached(dir + names, left)
    decreases |names|
  {
    if names == [] {
      assert dir + names == dir;
    } else {
      var child := dir + [names[0]];
      assert names[..1] == [names[0]];
      assert IsDir(t, child);
      forall k | 0 < k <= |names| - 1
        ensures IsDir(t, child + names[1..][..k])
      {
        assert child + names[1..][..k] == dir + names[..k + 1];
      }
      DescendsDirectories(t, strict, child, names[1..], left);
      assert child + names[1..] == dir + names;
    }
  }

  /** A canonical path has no link on it, and resolving it again changes nothing and follows no link. */
  lemma CanonicalIsFixed(t: Tree, path: Path)
    requires WellFormed(t) && Canonical(t, path).Reached?
    ensures forall k :: 0 <= k <= |Canonical(t, path).at| ==> IsDir(t, Canonical(t, path).at[..k])
    ensures Canonical(t, Path(true, Canonical(t, path).at)) == Reached(Canonical(t, path).at, MAX_LINKS)
  {
    var at := Canonical(t, path).at;
    EndsInDirectory(t, true, [], Clean(path.parts), MAX_LINKS);
    forall k | 0 <= k <= |at|
      ensures IsDir(t, at[..k]) && IsDir(t, [] + at[..k])
    {
      DirectoriesAbove(t, at, k);
      assert [] + at[..k] == at[..k];
    }
    DirectoryNames(t, at);
    CleansToItself([], at);
    DescendsDirectories(t, true, [], at, MAX_LINKS);
    assert [] + at == at;
  }

  lemma {:induction false} CleansToItself(stack: Location, names: Location)
    requires forall i :: 0 <= i < |names| ==> Plain(names[i])
    ensures CleanFrom(stack, names) == stack + names
    decreases |names|
  {
    if names == [] {
      assert stack + names == stack;
    } else {
      CleansToItself(stack + [names[0]], names[1..]);
      assert stack + [names[0]] + names[1..] == stack + names;
    }
  }

  /** Asking for trust changes no answer: it only refuses. */
  lemma {:induction false} TrustOnlyRefuses(t: Tree, dir: Location, parts: seq<string>, left: nat)
    ensures
      || Resolve(t, true, dir, parts, left) == Resolve(t, false, dir, parts, left)
      || Resolve(t, true, dir, parts, left) == Failed(Untrusted)
    decreases left, |parts|
  {
    if parts != [] {
      var child := dir + [parts[0]];
      if parts[0] == ".." {
        TrustOnlyRefuses(t, Parent(dir), parts[1..], left);
      } else if !Plain(parts[0]) {
        TrustOnlyRefuses(t, dir, parts[1..], left);
      } else if child in t && t[child].Dir? {
        TrustOnlyRefuses(t, child, parts[1..], left);
      } else if child in t && t[child].Link? && TrustedLink(t, child) && left > 0 {
        var target := t[child].target;
        TrustOnlyRefuses(t, Start(dir, target), target.parts, left - 1);
        var inner := Resolve(t, false, Start(dir, target), target.parts, left - 1);
        if inner.Reached? {
          TrustOnlyRefuses(t, inner.at, parts[1..], inner.left);
        }
      }
    }
  }

  /** The bound on links only refuses: a larger one reaches the same place through as many links. */
  lemma {:induction false} MoreLinksSamePlace(t: Tree, strict: bool, dir: Location, parts: seq<string>, left: nat, extra: nat)
    requires Resolve(t, strict, dir, parts, left) != Failed(TooManyLinks)
    ensures
      var r := Resolve(t, strict, dir, parts, left);
      Resolve(t, strict, dir, parts, left + extra) == if r.Reached? then r.(left := r.left + extra) else r
    decreases left, |parts|
  {
    if parts != [] {
      var child := dir + [parts[0]];
      if parts[0] == ".." {
        MoreLinksSamePlace(t, strict, Parent(dir), parts[1..], left, extra);
      } else if !Plain(parts[0]) {
        MoreLinksSamePlace(t, strict, dir, parts[1..], left, extra);
      } else if child in t && t[child].Dir? {
        MoreLinksSamePlace(t, strict, child, parts[1..], left, extra);
      } else if child in t && t[child].Link? && (strict ==> TrustedLink(t, child)) {
        var target := t[child].target;
        MoreLinksSamePlace(t, strict, Start(dir, target), target.parts, left - 1, extra);
        var inner := Resolve(t, strict, Start(dir, target), target.parts, left - 1);
        if inner.Reached? {
          MoreLinksSamePlace(t, strict, inner.at, parts[1..], inner.left, extra);
        }
      }
    }
  }

  // ---- what cleaning costs ----

  /** No ".." comes after a name: those left stand at the root, where they do nothing. */
  predicate NoUpAfterName(parts: seq<string>) {
    forall i, j :: 0 <= i < j < |parts| && Plain(parts[i]) ==> parts[j] != ".."
  }

  function Names(parts: seq<string>): Location {
    if parts == [] then []
    else if Plain(parts[0]) then [parts[0]] + Names(parts[1..])
    else Names(parts[1..])
  }

  lemma {:induction false} NamesArePlain(parts: seq<string>)
    ensures forall i :: 0 <= i < |Names(parts)| ==> Plain(Names(parts)[i]) && Names(parts)[i] in parts
    ensures |Names(parts)| <= |parts|
    ensures (exists i :: 0 <= i < |parts| && Plain(parts[i])) ==> Names(parts) != []
  {
    if parts != [] {
      NamesArePlain(parts[1..]);
      assert forall i :: 1 <= i < |parts| ==> parts[i] == parts[1..][i - 1];
    }
  }

  lemma {:induction false} CleanedIsPlain(stack: Location, parts: seq<string>)
    requires forall i :: 0 <= i < |stack| ==> Plain(stack[i])
    ensures forall i :: 0 <= i < |CleanFrom(stack, parts)| ==>
      Plain(CleanFrom(stack, parts)[i]) && (CleanFrom(stack, parts)[i] in stack || CleanFrom(stack, parts)[i] in parts)
    decreases |parts|
  {
    if parts != [] {
      CleanedIsPlain(
        if parts[0] == ".." then Parent(stack) else if Plain(parts[0]) then stack + [parts[0]] else stack, parts[1..]);
    }
  }

  /** Without "..", cleaning keeps the names and walking reads nothing but them. */
  lemma {:induction false} OnlyNamesMatter(t: Tree, strict: bool, dir: Location, stack: Location, parts: seq<string>, left: nat)
    requires ".." !in parts
    ensures CleanFrom(stack, parts) == stack + Names(parts)
    ensures Resolve(t, strict, dir, parts, left) == Resolve(t, strict, dir, Names(parts), left)
    decreases |parts|
  {
    if parts == [] {
      assert stack + Names(parts) == stack;
    } else if !Plain(parts[0]) {
      OnlyNamesMatter(t, strict, dir, stack, parts[1..], left);
    } else {
      var rest := Names(parts[1..]);
      assert Names(parts)[1..] == rest;
      OnlyNamesMatter(t, strict, dir, stack + [parts[0]], parts[1..], left);
      assert stack + [parts[0]] + rest == stack + Names(parts);
      assert [parts[0]] + parts[1..] == parts;
      Compose(t, strict, dir, [parts[0]], parts[1..], left);
      Compose(t, strict, dir, [parts[0]], rest, left);
      var first := Resolve(t, strict, dir, [parts[0]], left);
      if first.Reached? {
        OnlyNamesMatter(t, strict, first.at, stack, parts[1..], first.left);
      }
    }
  }

  lemma {:induction false} UpsAtRootVanish(t: Tree, strict: bool, parts: seq<string>, left: nat)
    requires NoUpAfterName(parts)
    ensures Clean(parts) == Names(parts)
    ensures Resolve(t, strict, [], parts, left) == Resolve(t, strict, [], Names(parts), left)
    decreases |parts|
  {
    if parts != [] {
      assert forall i :: 1 <= i < |parts| ==> parts[i] == parts[1..][i - 1];
      if Plain(parts[0]) {
        OnlyNamesMatter(t, strict, [], [], parts, left);
        assert [] + Names(parts) == Names(parts);
      } else {
        UpsAtRootVanish(t, strict, parts[1..], left);
      }
    }
  }

  ghost predicate CleaningKeepsMeaning(parts: seq<string>, t: Tree) {
    Canonical(t, Path(true, parts)) == Resolve(t, true, [], parts, MAX_LINKS)
  }

  /** The first ".." after a name. */
  lemma {:induction false} FirstUp(parts: seq<string>) returns (j: nat)
    requires !NoUpAfterName(parts)
    ensures j < |parts| && parts[j] == ".." && NoUpAfterName(parts[..j]) && Names(parts[..j]) != []
    decreases |parts|
  {
    var last := |parts| - 1;
    var before := parts[..last];
    if NoUpAfterName(before) {
      j := last;
      var i, k :| 0 <= i < k < |parts| && Plain(parts[i]) && parts[k] == "..";
      assert forall x :: 0 <= x < last ==> before[x] == parts[x];
      NamesArePlain(before);
    } else {
      j := FirstUp(before);
      assert before[..j] == parts[..j];
    }
  }

  lemma {:induction false} FreshName(parts: seq<string>) returns (q: string)
    ensures Plain(q) && |q| > 2 && q !in parts && forall p :: p in parts ==> |p| < |q|
  {
    if parts == [] {
      q := "qqq";
    } else {
      var rest := FreshName(parts[1..]);
      q := rest + parts[0] + "q";
      forall p | p in parts
        ensures |p| < |q|
      {
        if p != parts[0] {
          assert p in parts[1..];
        }
      }
    }
  }

  function Chain(q: string, n: nat): Location {
    seq(n, _ => q)
  }

  function Above(at: Location): set<Location> {
    set k | 0 <= k <= |at| :: at[..k]
  }

  const OPEN: Mode := Mode(true, false, true)

  /** A set of places that can all be directories at once. */
  ghost predicate Closed(dirs: set<Location>) {
    [] in dirs && forall at :: at in dirs && at != [] ==> Plain(at[|at| - 1]) && Parent(at) in dirs
  }

  /** Directories, and one link to an absolute place. */
  ghost function Trap(dirs: set<Location>, link: Location, target: Location): Tree {
    (map at | at in dirs :: Dir(OPEN))[link := Link(OPEN, Path(true, target))]
  }

  lemma AboveIsClosed(a: Location)
    requires forall i :: 0 <= i < |a| ==> Plain(a[i])
    ensures Closed(Above(a)) && a in Above(a)
  {
    assert a[..0] == [] && a[..|a|] == a;
    forall at | at in Above(a) && at != []
      ensures Plain(at[|at| - 1]) && Parent(at) in Above(a)
    {
      assert Parent(at) == a[..|at| - 1];
    }
  }

  lemma UnionIsClosed(a: set<Location>, b: set<Location>)
    requires Closed(a) && Closed(b)
    ensures Closed(a + b)
  {
  }

  lemma TrapIsWellFormed(dirs: set<Location>, link: Location, target: Location)
    requires Closed(dirs) && link != [] && link !in dirs && Plain(link[|link| - 1])
    requires Parent(link) in dirs && forall k :: 0 <= k < |link| ==> link[..k] in dirs
    ensures WellFormed(Trap(dirs, link, target)) && TrustedLink(Trap(dirs, link, target), link)
  {
    var t := Trap(dirs, link, target);
    forall at | at in dirs
      ensures IsDir(t, at) && t[at].mode == OPEN
    {
    }
    TrapNames(dirs, link, target);
    hide Trap, Closed;
    forall k | 0 <= k < |link|
      ensures Guarded(t, link[..k])
    {
      assert link[..k] in dirs;
    }
  }

  lemma TrapNames(dirs: set<Location>, link: Location, target: Location)
    requires Closed(dirs) && link != [] && link !in dirs && Plain(link[|link| - 1]) && Parent(link) in dirs
    ensures WellFormed(Trap(dirs, link, target)) && Trap(dirs, link, target)[link] == Link(OPEN, Path(true, target))
  {
    var t := Trap(dirs, link, target);
    forall at | at in t && at != []
      ensures Plain(at[|at| - 1]) && IsDir(t, Parent(at))
    {
      if at != link {
        assert at in dirs;
      }
      assert Parent(at) in dirs;
    }
  }

  /** What the cleaned path reaches in the trap. */
  function CleanedEnd(cleaned: Location, link: Location, target: Location): Location {
    if |link| <= |cleaned| && cleaned[..|link|] == link then target + cleaned[|link|..] else cleaned
  }

  function TrapDirs(cleaned: Location, link: Location, target: Location): set<Location> {
    Above(Parent(link)) + Above(target) + Above(CleanedEnd(cleaned, link, target))
  }

  /** The names a trap is built from: those of one path, none of them `q`. */
  ghost predicate Avoids(names: Location, q: string) {
    forall i :: 0 <= i < |names| ==> Plain(names[i]) && names[i] != q
  }

  lemma NotAbove(at: Location, k: nat, a: Location)
    requires k < |at| && (k < |a| ==> at[k] != a[k])
    ensures at !in Above(a)
  {
  }

  lemma LinkIsOutside(cleaned: Location, link: Location, q: string, n: nat)
    requires Avoids(link, q) && link != [] && n > 0
    ensures link !in TrapDirs(cleaned, link, Chain(q, n))
  {
    var target := Chain(q, n);
    assert link[0] != q;
    NotAbove(link, 0, target);
    if |link| <= |cleaned| && cleaned[..|link|] == link {
      NotAbove(link, 0, target + cleaned[|link|..]);
    } else {
      assert forall k :: 0 <= k <= |cleaned| ==> link != cleaned[..k];
    }
  }

  lemma TrapFits(cleaned: Location, link: Location, q: string, n: nat)
    requires Avoids(cleaned, q) && Avoids(link, q) && link != [] && Plain(q) && n > 0
    ensures
      var target := Chain(q, n);
      var dirs := TrapDirs(cleaned, link, target);
      Closed(dirs) && WellFormed(Trap(dirs, link, target)) && TrustedLink(Trap(dirs, link, target), link)
  {
    var target := Chain(q, n);
    var end := CleanedEnd(cleaned, link, target);
    AboveIsClosed(Parent(link));
    AboveIsClosed(target);
    AboveIsClosed(end);
    UnionIsClosed(Above(Parent(link)), Above(target));
    UnionIsClosed(Above(Parent(link)) + Above(target), Above(end));
    LinkIsOutside(cleaned, link, q, n);
    forall k | 0 <= k < |link|
      ensures link[..k] in Above(Parent(link))
    {
      assert link[..k] == Parent(link)[..k];
    }
    hide Closed;
    TrapIsWellFormed(TrapDirs(cleaned, link, target), link, target);
  }

  /** Below the link's target no name of the path is to be found. */
  lemma NothingThere(cleaned: Location, link: Location, q: string, n: nat, k: nat, name: string)
    requires Avoids(cleaned, q) && Avoids(link, q) && link != [] && name != q && 0 < k < n
    ensures Chain(q, k) + [name] !in Trap(TrapDirs(cleaned, link, Chain(q, n)), link, Chain(q, n))
  {
    var place, target := Chain(q, k) + [name], Chain(q, n);
    assert place[0] == q && place[k] == name && link[0] != q;
    NotAbove(place, 0, Parent(link));
    NotAbove(place, k, target);
    if |link| <= |cleaned| && cleaned[..|link|] == link {
      NotAbove(place, k, target + cleaned[|link|..]);
    } else {
      NotAbove(place, 0, cleaned);
    }
  }

  /** Climbing from inside the chain stops inside the chain. */
  lemma {:induction false} Lost(t: Tree, q: string, n: nat, k: nat, rest: seq<string>, left: nat)
    requires |rest| < k < n
    requires forall m, name :: 0 < m < n && name in rest && Plain(name) ==> Chain(q, m) + [name] !in t
    ensures
      var r := Resolve(t, true, Chain(q, k), rest, left);
      r == Failed(Missing) || (r.Reached? && |r.at| < n && r.left == left)
    decreases |rest|
  {
    if rest != [] {
      if rest[0] == ".." {
        assert Parent(Chain(q, k)) == Chain(q, k - 1);
        Lost(t, q, n, k - 1, rest[1..], left);
      } else if !Plain(rest[0]) {
        Lost(t, q, n, k, rest[1..], left);
      } else {
        assert Chain(q, k) + [rest[0]] !in t;
      }
    }
  }

  lemma FollowsLink(t: Tree, link: Location, target: Location, left: nat)
    requires link in t && t[link] == Link(OPEN, Path(true, target)) && TrustedLink(t, link) && left > 0 && link != []
    requires forall k :: 0 <= k < |link| ==> IsDir(t, link[..k]) && Plain(link[k])
    requires forall k :: 0 <= k <= |target| ==> IsDir(t, target[..k])
    requires forall k :: 0 <= k < |target| ==> Plain(target[k])
    ensures Resolve(t, true, [], link, left) == Reached(target, left - 1)
  {
    hide TrustedLink, IsDir;
    var parent, name := Parent(link), link[|link| - 1];
    assert parent + [name] == link;
    Compose(t, true, [], parent, [name], left);
    forall k | 0 < k <= |parent|
      ensures IsDir(t, [] + parent[..k])
    {
      assert [] + parent[..k] == link[..k];
    }
    DescendsDirectories(t, true, [], parent, left);
    assert [] + parent == parent;
    forall k | 0 < k <= |target|
      ensures IsDir(t, [] + target[..k])
    {
      assert [] + target[..k] == target[..k];
    }
    DescendsDirectories(t, true, [], target, left - 1);
    assert [] + target == target;
    hide Resolve;
    ReadOne(t, parent, [name], left);
    assert target + [name][1..] == target;
  }

  /** The link and the spare name a trap for `parts` is built from: the link is read just before `parts[j]`. */
  lemma TrapParts(parts: seq<string>) returns (j: nat, q: string)
    requires !NoUpAfterName(parts)
    ensures j < |parts| && parts[j] == ".." && Plain(q) && q !in parts
    ensures Names(parts[..j]) != [] && Avoids(Names(parts[..j]), q) && Avoids(Clean(parts), q)
    ensures NoUpAfterName(parts[..j])
  {
    j := FirstUp(parts);
    q := FreshName(parts);
    NamesArePlain(parts[..j]);
    CleanedIsPlain([], parts);
  }

  /** A tree on which cleaning a path with ".." after a name changes where it leads. */
  lemma Separate(parts: seq<string>) returns (t: Tree)
    requires !NoUpAfterName(parts)
    ensures WellFormed(t) && !CleaningKeepsMeaning(parts, t)
  {
    hide Resolve, TrustedLink, WellFormed, NoUpAfterName, Names, CleanFrom, Trap, TrapDirs, Avoids, Closed;
    var j, q := TrapParts(parts);
    var n := |parts| + 1;
    var link, target, cleaned := Names(parts[..j]), Chain(q, n), Clean(parts);
    t := Trap(TrapDirs(cleaned, link, target), link, target);
    TrapFits(cleaned, link, q, n);
    UpsAtRootVanish(t, true, parts[..j], MAX_LINKS);
    FollowsTrap(cleaned, link, q, n);
    CleanedArrives(cleaned, link, q, n);
    assert parts[..j] + parts[j..] == parts;
    Compose(t, true, [], parts[..j], parts[j..], MAX_LINKS);
    GetsLost(cleaned, link, q, n, parts[j..], MAX_LINKS - 1);
  }

  lemma GetsLost(cleaned: Location, link: Location, q: string, n: nat, rest: seq<string>, left: nat)
    requires Avoids(cleaned, q) && Avoids(link, q) && link != [] && q !in rest
    requires rest != [] && rest[0] == ".." && |rest| < n
    ensures
      var target := Chain(q, n);
      var r := Resolve(Trap(TrapDirs(cleaned, link, target), link, target), true, target, rest, left);
      r == Failed(Missing) || (r.Reached? && |r.at| < n && r.left == left)
  {
    var target := Chain(q, n);
    var t := Trap(TrapDirs(cleaned, link, target), link, target);
    forall m, name | 0 < m < n && name in rest[1..] && Plain(name)
      ensures Chain(q, m) + [name] !in t
    {
      NothingThere(cleaned, link, q, n, m, name);
    }
    assert Parent(target) == Chain(q, n - 1);
    hide Trap, TrapDirs, Avoids;
    Lost(t, q, n, n - 1, rest[1..], left);
  }

  lemma FollowsTrap(cleaned: Location, link: Location, q: string, n: nat)
    requires Avoids(cleaned, q) && Avoids(link, q) && link != [] && Plain(q) && n > 0
    ensures
      var target := Chain(q, n);
      Resolve(Trap(TrapDirs(cleaned, link, target), link, target), true, [], link, MAX_LINKS) == Reached(target, MAX_LINKS - 1)
  {
    hide WellFormed, Closed, Resolve, TrustedLink, IsDir;
    var target := Chain(q, n);
    var t := Trap(TrapDirs(cleaned, link, target), link, target);
    TrapFits(cleaned, link, q, n);
    TrapHas(cleaned, link, q, n);
    assert t[link] == Link(OPEN, Path(true, target));
    hide Trap, TrapDirs;
    FollowsLink(t, link, target, MAX_LINKS);
  }

  lemma TrapHas(cleaned: Location, link: Location, q: string, n: nat)
    requires Avoids(link, q) && link != [] && n > 0
    ensures
      var target := Chain(q, n);
      var t := Trap(TrapDirs(cleaned, link, target), link, target);
      (forall k :: 0 <= k < |link| ==> IsDir(t, link[..k])) && forall k :: 0 <= k <= n ==> IsDir(t, target[..k])
  {
    var target := Chain(q, n);
    var dirs := TrapDirs(cleaned, link, target);
    LinkIsOutside(cleaned, link, q, n);
    forall k | 0 <= k < |link|
      ensures link[..k] in dirs
    {
      assert link[..k] == Parent(link)[..k];
    }
    forall k | 0 <= k <= n
      ensures target[..k] in dirs
    {
      assert target[..k] in Above(target);
    }
  }

  lemma CleanedArrives(cleaned: Location, link: Location, q: string, n: nat)
    requires Avoids(cleaned, q) && Avoids(link, q) && link != [] && Plain(q) && n > 0
    ensures
      var target := Chain(q, n);
      var r := Resolve(Trap(TrapDirs(cleaned, link, target), link, target), true, [], cleaned, MAX_LINKS);
      r == Reached(cleaned, MAX_LINKS) || (r.Reached? && |r.at| >= n)
  {
    var target := Chain(q, n);
    var dirs := TrapDirs(cleaned, link, target);
    var t := Trap(dirs, link, target);
    var end := CleanedEnd(cleaned, link, target);
    LinkIsOutside(cleaned, link, q, n);
    if |link| <= |cleaned| && cleaned[..|link|] == link {
      var rest := cleaned[|link|..];
      FollowsTrap(cleaned, link, q, n);
      assert link + rest == cleaned;
      Compose(t, true, [], link, rest, MAX_LINKS);
      forall k | 0 < k <= |rest|
        ensures IsDir(t, target + rest[..k])
      {
        assert target + rest[..k] == end[..n + k];
      }
      DescendsDirectories(t, true, target, rest, MAX_LINKS - 1);
    } else {
      forall k | 0 < k <= |cleaned|
        ensures IsDir(t, [] + cleaned[..k])
      {
        assert [] + cleaned[..k] == end[..k];
      }
      DescendsDirectories(t, true, [], cleaned, MAX_LINKS);
      assert [] + cleaned == cleaned;
    }
  }

  /**
   * Cleaning first is harmless on every tree exactly for the paths with no ".." after a name: for any
   * other path some tree of root-owned directories and one trusted link tells the two readings apart.
   */
  lemma CleaningIsHarmless(parts: seq<string>)
    ensures NoUpAfterName(parts) <==> forall t :: WellFormed(t) ==> CleaningKeepsMeaning(parts, t)
  {
    if NoUpAfterName(parts) {
      forall t: Tree
        ensures CleaningKeepsMeaning(parts, t)
      {
        UpsAtRootVanish(t, true, parts, MAX_LINKS);
      }
    } else {
      var t := Separate(parts);
      assert WellFormed(t) && !CleaningKeepsMeaning(parts, t);
    }
  }

  /** With /a a link to /c/d, the path /a/../b names /c/b, and cleaning makes it /b. */
  lemma CleaningCanMislead()
    ensures
      var t := map[
                 [] := Dir(OPEN), ["a"] := Link(OPEN, Path(true, ["c", "d"])), ["b"] := Dir(OPEN), ["c"] := Dir(OPEN),
                 ["c", "b"] := Dir(OPEN), ["c", "d"] := Dir(OPEN)];
      && Canonical(t, Path(true, ["a", "..", "b"])) == Reached(["b"], MAX_LINKS)
      && Resolve(t, true, [], ["a", "..", "b"], MAX_LINKS) == Reached(["c", "b"], MAX_LINKS - 1)
  {
    var t := map[
               [] := Dir(OPEN), ["a"] := Link(OPEN, Path(true, ["c", "d"])), ["b"] := Dir(OPEN), ["c"] := Dir(OPEN),
               ["c", "b"] := Dir(OPEN), ["c", "d"] := Dir(OPEN)];
    assert Clean(["a", "..", "b"]) == ["b"] by {
      assert ["a", "..", "b"][1..] == ["..", "b"] && ["..", "b"][1..] == ["b"] && ["b"][1..] == [];
      assert CleanFrom(["a"], ["..", "b"]) == CleanFrom([], ["b"]);
    }
    assert [] + ["b"] == ["b"] && [] + ["a"] == ["a"] && [] + ["c"] == ["c"];
    assert ["b"][1..] == [] && ["c", "d"][1..] == ["d"] && ["d"][1..] == [];
    NothingLeft(t, ["b"], MAX_LINKS);
    ReadOne(t, [], ["b"], MAX_LINKS);
    assert TrustedLink(t, ["a"]) by {
      assert forall k :: 0 <= k < 1 ==> ["a"][..k] == [];
    }
    var rest := ["..", "b"];
    hide Resolve, TrustedLink;
    assert ["a", "..", "b"][1..] == rest && ["c", "d"] + rest == ["c", "d", "..", "b"];
    ReadOne(t, [], ["a", "..", "b"], MAX_LINKS);
    ReadOne(t, [], ["c", "d", "..", "b"], MAX_LINKS - 1);
    assert ["c", "d", "..", "b"][1..] == ["d", "..", "b"] && ["d", "..", "b"][1..] == rest && rest[1..] == ["b"];
    assert ["c"] + ["d"] == ["c", "d"] && ["c"] + ["b"] == ["c", "b"];
    ReadOne(t, ["c"], ["d", "..", "b"], MAX_LINKS - 1);
    ReadOne(t, ["c", "d"], rest, MAX_LINKS - 1);
    assert Parent(["c", "d"]) == ["c"];
    ReadOne(t, ["c"], ["b"], MAX_LINKS - 1);
    NothingLeft(t, ["c", "b"], MAX_LINKS - 1);
  }
}
