/**
 What the lexical path functions of Paths mean: a path is followed through a directory tree element by
 element, and cleaning it, comparing it with a root and making it relative are right for every tree
 without links. (Where there are links the agent resolves them first, see AgentIsPathAllowed.)
 */
module PathMeaning {
  import opened Keys
  import opened Options
  import opened Paths

  // ---- what a path means ----

  /**
   What locations are called. A tree is free to give any location any name, so the only thing that matters
   about names is that there are enough of them.
   */
  type Place = Path

  /** A directory tree: where "/" and "." are, the parent of a location, and its entries. */
  datatype Tree = Tree(root: Place, here: Place, parent: Place -> Place, child: (Place, string) -> Place)

  /** Going into an entry and back ends where it began, and the root is its own parent. */
  ghost predicate LinkFree(t: Tree) {
    t.parent(t.root) == t.root && forall d, e :: IsEntryName(e) ==> t.parent(t.child(d, e)) == d
  }

  function Go(t: Tree, d: Place, e: string): Place {
    if e == "" || e == "." then d else if e == ".." then t.parent(d) else t.child(d, e)
  }

  /** Where the elements lead from d, one after the other. */
  function Follow(t: Tree, d: Place, elements: seq<string>): Place {
    if elements == [] then d
    else Go(t, Follow(t, d, elements[..|elements| - 1]), elements[|elements| - 1])
  }

  function Origin(t: Tree, rooted: bool): Place {
    if rooted then t.root else t.here
  }

  /** What the kernel does with a path: it follows the elements as they stand, without cleaning anything. */
  function Resolve(t: Tree, s: string): Place {
    Follow(t, Origin(t, HasPrefix(s, "/")), Split(s))
  }

  lemma FollowOne(t: Tree, d: Place, elements: seq<string>, e: string)
    ensures Follow(t, d, elements + [e]) == Go(t, Follow(t, d, elements), e)
  {
    assert (elements + [e])[..|elements|] == elements;
  }

  lemma {:induction false} FollowSum(t: Tree, d: Place, a: seq<string>, b: seq<string>)
    ensures Follow(t, d, a + b) == Follow(t, Follow(t, d, a), b)
  {
    if b == [] {
      assert a + b == a;
    } else {
      FollowSum(t, d, a, b[..|b| - 1]);
      assert (a + b)[..|a + b| - 1] == a + b[..|b| - 1];
    }
  }

  lemma FollowPush(t: Tree, rooted: bool, parts: seq<string>, e: string)
    requires LinkFree(t) && IsClean(Path(rooted, parts)) && SLASH !in e
    ensures Follow(t, Origin(t, rooted), Push(rooted, parts, e)) == Go(t, Follow(t, Origin(t, rooted), parts), e)
  {
    FollowOne(t, Origin(t, rooted), parts, e);
    if parts != [] {
      var n := |parts| - 1;
      assert IsElement(parts[n]) && (parts[n] == ".." ==> !rooted);
    }
  }

  lemma {:induction false} FollowWalk(t: Tree, rooted: bool, elements: seq<string>)
    requires LinkFree(t) && NoSlashes(elements)
    ensures Follow(t, Origin(t, rooted), Walk(rooted, [], elements)) == Follow(t, Origin(t, rooted), elements)
  {
    if elements != [] {
      var n := |elements| - 1;
      FollowWalk(t, rooted, elements[..n]);
      WalkIsClean(rooted, [], elements[..n]);
      FollowPush(t, rooted, Walk(rooted, [], elements[..n]), elements[n]);
    }
  }

  lemma ResolveCleaned(t: Tree, s: string)
    requires LinkFree(t)
    ensures Resolve(t, s) == Follow(t, Origin(t, Cleaned(s).rooted), Cleaned(s).parts)
  {
    SplitHasNoSlashes(s);
    FollowWalk(t, Cleaned(s).rooted, Split(s));
  }

  /** Cleaning keeps the meaning: in every tree without links a path and its cleaned form lead to the same place. */
  lemma CleanKeepsTheMeaning(t: Tree, s: string)
    requires LinkFree(t)
    ensures Resolve(t, Clean(s)) == Resolve(t, s)
  {
    ResolveCleaned(t, s);
    ResolveCleaned(t, Clean(s));
    CleanIsIdempotent(s);
  }

  /** The tree in which nothing is identified that LinkFree does not force: above "." there is ".." and so on. */
  function FreeTree(): Tree {
    Tree(Path(true, []), Path(false, []), Above, (d: Path, e: string) => Path(d.rooted, d.parts + [e]))
  }

  function Above(d: Path): Path {
    if d.parts == [] && d.rooted then d
    else if d.parts == [] || d.parts[|d.parts| - 1] == ".." then Path(d.rooted, d.parts + [".."])
    else Path(d.rooted, d.parts[..|d.parts| - 1])
  }

  lemma FreeTreeIsLinkFree()
    ensures LinkFree(FreeTree())
  {
    var t := FreeTree();
    forall d: Path, e | IsEntryName(e) ensures t.parent(t.child(d, e)) == d {
      assert (d.parts + [e])[..|d.parts|] == d.parts;
    }
  }

  lemma {:induction false} FollowInFreeTree(rooted: bool, parts: seq<string>)
    requires IsClean(Path(rooted, parts))
    ensures Follow(FreeTree(), Path(rooted, []), parts) == Path(rooted, parts)
    decreases |parts|
  {
    if parts != [] {
      var n := |parts| - 1;
      assert forall i :: 0 <= i < n ==> parts[..n][i] == parts[i];
      FollowInFreeTree(rooted, parts[..n]);
      assert IsElement(parts[n]);
      assert parts == parts[..n] + [parts[n]];
      if parts[n] == ".." && n > 0 {
        assert parts[n - 1] == "..";
      }
    }
  }

  ghost predicate SameMeaning(a: string, b: string) {
    forall t: Tree :: LinkFree(t) ==> Resolve(t, a) == Resolve(t, b)
  }

  /** Two paths have the same cleaned form exactly when they mean the same in every tree without links. */
  lemma CleanedIffSameMeaning(a: string, b: string)
    ensures Clean(a) == Clean(b) <==> SameMeaning(a, b)
  {
    CleanIsIdempotent(a);
    CleanIsIdempotent(b);
    if Clean(a) == Clean(b) {
      forall t: Tree | LinkFree(t) ensures Resolve(t, a) == Resolve(t, b) {
        ResolveCleaned(t, a);
        ResolveCleaned(t, b);
      }
    }
    if SameMeaning(a, b) {
      FreeTreeIsLinkFree();
      MeansItsCleaned(a);
      MeansItsCleaned(b);
      assert Resolve(FreeTree(), a) == Resolve(FreeTree(), b);
    }
  }

  lemma MeansItsCleaned(s: string)
    ensures Resolve(FreeTree(), s) == Cleaned(s)
  {
    FreeTreeIsLinkFree();
    ResolveCleaned(FreeTree(), s);
    CleanedIsClean(s);
    FollowInFreeTree(Cleaned(s).rooted, Cleaned(s).parts);
  }

  // ---- what containment means ----

  predicate AllEntries(names: seq<string>) {
    forall i :: 0 <= i < |names| ==> IsEntryName(names[i])
  }

  /** The location p is reached from d by going into these entries, one after the other. */
  ghost predicate LeadsDown(t: Tree, d: Place, names: seq<string>, p: Place) {
    AllEntries(names) && Follow(t, d, names) == p
  }

  lemma BelowIsDown(p: Path, root: Path)
    requires IsClean(p) && Below(p, root)
    ensures AllEntries(p.parts[|root.parts|..]) && p.parts == root.parts + p.parts[|root.parts|..]
  {
    var k := |root.parts|;
    forall i | k <= i < |p.parts| ensures IsEntryName(p.parts[i]) {
      assert IsElement(p.parts[i]);
    }
  }

  lemma BelowLeadsDown(t: Tree, path: string, root: string)
    requires LinkFree(t) && Below(Cleaned(path), Cleaned(root))
    ensures LeadsDown(t, Resolve(t, root), Cleaned(path).parts[|Cleaned(root).parts|..], Resolve(t, path))
  {
    ResolveCleaned(t, path);
    ResolveCleaned(t, root);
    CleanedIsClean(path);
    var p, r := Cleaned(path), Cleaned(root);
    BelowIsDown(p, r);
    FollowSum(t, Origin(t, r.rooted), r.parts, p.parts[|r.parts|..]);
  }

  ghost predicate AlwaysDown(path: string, root: string, names: seq<string>) {
    forall t: Tree :: LinkFree(t) ==> LeadsDown(t, Resolve(t, root), names, Resolve(t, path))
  }

  lemma {:induction false} DownInFreeTree(d: Path, names: seq<string>)
    requires AllEntries(names)
    ensures Follow(FreeTree(), d, names) == Path(d.rooted, d.parts + names)
  {
    if names != [] {
      var n := |names| - 1;
      DownInFreeTree(d, names[..n]);
      assert IsEntryName(names[n]);
      assert names == names[..n] + [names[n]];
    }
  }

  /**
   A path is within a root exactly when, whatever the tree looks like, it leads to the root's directory or
   from there only down: through the same entries in every tree, never up and never beside.
   */
  lemma WithinIffLeadsDown(path: string, root: string)
    ensures WithinRoot(path, root) <==> exists names :: AlwaysDown(path, root, names)
  {
    WithinIffBelow(path, root);
    if WithinRoot(path, root) {
      forall t: Tree | LinkFree(t)
        ensures LeadsDown(t, Resolve(t, root), Cleaned(path).parts[|Cleaned(root).parts|..], Resolve(t, path))
      {
        BelowLeadsDown(t, path, root);
      }
      assert AlwaysDown(path, root, Cleaned(path).parts[|Cleaned(root).parts|..]);
    }
    if names :| AlwaysDown(path, root, names) {
      FreeTreeIsLinkFree();
      MeansItsCleaned(path);
      MeansItsCleaned(root);
      assert LeadsDown(FreeTree(), Resolve(FreeTree(), root), names, Resolve(FreeTree(), path));
      DownInFreeTree(Cleaned(root), names);
      if names != [] { assert IsEntryName(names[0]); }
    }
  }

  lemma AppendedCleaned(dir: string, tail: string)
    requires dir != ""
    ensures Cleaned(dir + "/" + tail).rooted == Cleaned(dir).rooted
  {
    assert (dir + "/" + tail)[0] == dir[0];
  }

  lemma ResolveAppended(t: Tree, dir: string, e: string)
    requires dir != "" && SLASH !in e
    ensures Resolve(t, dir + "/" + e) == Go(t, Resolve(t, dir), e)
  {
    AppendedCleaned(dir, e);
    SplitOneMore(dir, Split(dir), e);
    FollowOne(t, Origin(t, Cleaned(dir).rooted), Split(dir), e);
  }

  lemma SameInFreeTree(a: string, b: string)
    requires Resolve(FreeTree(), a) == Resolve(FreeTree(), b)
    ensures Cleaned(a) == Cleaned(b)
  {
    MeansItsCleaned(a);
    MeansItsCleaned(b);
  }

  /** Going into an entry and back changes nothing; nor does staying; and the root has nothing above it. */
  lemma DownAndUpIsNothing(dir: string, e: string)
    requires dir != "" && IsEntryName(e)
    ensures Cleaned(dir + "/" + e + "/..") == Cleaned(dir)
    ensures Cleaned(dir + "/.") == Cleaned(dir) == Cleaned(dir + "/")
    ensures Cleaned("/..") == Cleaned("/") == Path(true, [])
  {
    var t := FreeTree();
    FreeTreeIsLinkFree();
    ResolveAppended(t, dir, e);
    ResolveAppended(t, dir + "/" + e, "..");
    assert dir + "/" + e + "/.." == (dir + "/" + e) + "/" + "..";
    SameInFreeTree(dir + "/" + e + "/..", dir);
    StayingIsNothing(dir);
    RootIsEmpty();
    DotDotOfRoot();
  }

  lemma StayingIsNothing(dir: string)
    requires dir != ""
    ensures Cleaned(dir + "/.") == Cleaned(dir) == Cleaned(dir + "/")
  {
    ResolveAppended(FreeTree(), dir, ".");
    ResolveAppended(FreeTree(), dir, "");
    assert dir + "/." == dir + "/" + "." && dir + "/" + "" == dir + "/";
    SameInFreeTree(dir + "/.", dir);
    SameInFreeTree(dir + "/", dir);
  }

  lemma DotDotOfRoot()
    ensures Cleaned("/..") == Path(true, [])
  {
    var t := FreeTree();
    SplitOneMore("", [""], "..");
    assert "" + "/" + ".." == "/..";
    FollowOne(t, t.root, [""], "..");
    assert [""][..0] == [];
    MeansItsCleaned("/..");
  }

  lemma EntryAppended(dir: string, e: string)
    requires dir != "" && IsEntryName(e)
    ensures Cleaned(dir + "/" + e) == Path(Cleaned(dir).rooted, Cleaned(dir).parts + [e])
  {
    JoinAppends(dir, e);
    CleanIsIdempotent(dir + "/" + e);
  }

  lemma UpAppended(dir: string)
    requires dir != "" && Cleaned(dir).parts != [] && Anchored(dir)
    ensures Cleaned(dir + "/..") == Path(Cleaned(dir).rooted, Cleaned(dir).parts[..|Cleaned(dir).parts| - 1])
  {
    ResolveAppended(FreeTree(), dir, "..");
    assert dir + "/.." == dir + "/" + "..";
    MeansItsCleaned(dir);
    MeansItsCleaned(dir + "/..");
  }

  lemma BesideIsOutside(root: Path, path: Path, f: string)
    requires root.parts != [] && f != root.parts[|root.parts| - 1]
    requires path == Path(root.rooted, root.parts[..|root.parts| - 1] + [f])
    ensures !Below(path, root) && !Continues(path, root)
  {
    var n := |root.parts| - 1;
    assert path.parts[n] == f;
  }

  /** What lies beside an anchored directory is neither within it nor may it be deleted from it. */
  lemma SiblingIsOutside(root: string, f: string)
    requires root != "" && Cleaned(root).parts != [] && Anchored(root)
    requires IsEntryName(f) && f != Cleaned(root).parts[|Cleaned(root).parts| - 1]
    ensures !WithinRoot(root + "/../" + f, root)
    ensures HasPrefix(root, "/") ==> !MayDelete(root, root + "/../" + f)
    ensures !MayDelete(root, ALIAS + "/../" + f)
  {
    var path := root + "/../" + f;
    SiblingCleaned(root, f, path);
    BesideIsOutside(Cleaned(root), Cleaned(path), f);
    WithinIffBelow(path, root);
    if HasPrefix(root, "/") {
      SiblingByPath(root, path);
    }
    SiblingByAlias(root, f, path);
  }

  lemma SiblingCleaned(root: string, f: string, path: string)
    requires root != "" && Cleaned(root).parts != [] && Anchored(root) && IsEntryName(f) && path == root + "/../" + f
    ensures Cleaned(path) == Path(Cleaned(root).rooted, Cleaned(root).parts[..|Cleaned(root).parts| - 1] + [f])
  {
    UpAppended(root);
    EntryAppended(root + "/..", f);
    assert (root + "/..") + "/" + f == path;
  }

  lemma SiblingByPath(root: string, path: string)
    requires HasPrefix(root, "/") && HasPrefix(path, "/") && !Continues(Cleaned(path), Cleaned(root))
    ensures !MayDelete(root, path)
  {
    assert path[0] == '/' && ALIAS[0] == 'v' && (ALIAS + "/")[0] == 'v';
    MayDeleteIffContinues(root, path);
  }

  lemma Regrouped(s: string, f: string)
    ensures s + "/../" + f == s + "/" + ("../" + f)
  {
    assert "/../" == "/" + "../";
  }

  lemma SiblingByAlias(root: string, f: string, path: string)
    requires root != "" && IsEntryName(f) && path == root + "/../" + f && !Continues(Cleaned(path), Cleaned(root))
    ensures !MayDelete(root, ALIAS + "/../" + f)
  {
    var rel := "../" + f;
    CleanedUpThen(f);
    Regrouped(root, f);
    Regrouped(ALIAS, f);
    RequestByAlias(root, rel, path);
  }

  lemma RequestByAlias(root: string, rel: string, path: string)
    requires root != "" && Clean(rel) == rel != "" && path == root + "/" + rel && !Continues(Cleaned(path), Cleaned(root))
    ensures !MayDelete(root, ALIAS + "/" + rel)
  {
    AliasThen(root, rel);
    CleanIsIdempotent(path);
    MayDeleteIffContinues(root, ALIAS + "/" + rel);
  }

  lemma AliasThen(root: string, rel: string)
    requires root != "" && Clean(rel) != ""
    ensures ResolveAgentPath(root, ALIAS + "/" + rel) == Clean(root + "/" + Clean(rel))
  {
    var request := ALIAS + "/" + rel;
    assert request[..|ALIAS| + 1] == ALIAS + "/" && request[|ALIAS| + 1..] == rel;
    assert |request| > |ALIAS|;
  }

  lemma CleanedUpThen(f: string)
    requires IsEntryName(f)
    ensures Clean("../" + f) == "../" + f
  {
    var parts := ["..", f];
    assert JoinParts(parts) == "../" + f by {
      JoinPush([".."], f);
      assert [".."] + [f] == parts;
    }
    CleanedRelative(parts);
  }

  /** The same for a directory given by its last element. */
  lemma NeighbourIsOutside(dir: string, e: string, f: string)
    requires dir != "" && IsEntryName(e) && IsEntryName(f) && e != f
    ensures !WithinRoot(dir + "/" + e + "/../" + f, dir + "/" + e)
  {
    EntryAppended(dir, e);
    SiblingIsOutside(dir + "/" + e, f);
  }

  // ---- what a relative path means ----

  lemma {:induction false} FollowUps(t: Tree, d: Place, names: seq<string>)
    requires LinkFree(t) && AllEntries(names)
    ensures Follow(t, Follow(t, d, names), Ups(|names|)) == d
  {
    if names != [] {
      var n := |names| - 1;
      var at := Follow(t, d, names);
      assert IsEntryName(names[n]);
      FollowUps(t, d, names[..n]);
      UpsFirst(n);
      FollowSum(t, at, [".."], Ups(n));
      assert Follow(t, at, [".."]) == Go(t, Follow(t, at, [".."][..0]), "..");
    }
  }

  lemma {:induction false} UpsFirst(n: nat)
    ensures Ups(n + 1) == [".."] + Ups(n)
  {
    if n > 0 { UpsFirst(n - 1); }
  }

  /** What filepath.Rel promises: from the base's directory the relative path leads to the target. */
  lemma RelLeadsThere(t: Tree, base: string, target: string)
    requires LinkFree(t)
    ensures HasPrefix(base, "/") && HasPrefix(target, "/") ==> Rel(base, target).Some?
    ensures Rel(base, target).Some? ==> Follow(t, Resolve(t, base), Split(Rel(base, target).value)) == Resolve(t, target)
  {
    ResolveCleaned(t, base);
    ResolveCleaned(t, target);
    CleanedIsClean(base);
    CleanedIsClean(target);
    if Rel(base, target).Some? {
      RelOfLeadsThere(t, Cleaned(base), Cleaned(target), Resolve(t, base), Rel(base, target));
    }
  }

  lemma RelSplits(b: Path, p: Path)
    requires IsClean(b) && IsClean(p) && RelOf(b, p).Some? && b != p
    ensures var k := Common(b.parts, p.parts);
            && b.rooted == p.rooted && (k < |b.parts| ==> b.parts[k] != "..")
            && Split(RelOf(b, p).value) == RelParts(b.parts, p.parts, k)
  {
    var k := Common(b.parts, p.parts);
    RelIsNotEmpty(b, p, k);
    RelPartsSplit(b.parts, p.parts, k);
  }

  lemma RelPartsSplit(b: seq<string>, p: seq<string>, k: nat)
    requires k <= |b| && k <= |p| && RelParts(b, p, k) != [] && forall i :: 0 <= i < |p| ==> IsElement(p[i])
    ensures Split(JoinParts(RelParts(b, p, k))) == RelParts(b, p, k)
  {
    RelPartsAreElements(b, p, k);
    ElementsSplit(RelParts(b, p, k));
  }

  lemma ElementsSplit(parts: seq<string>)
    requires parts != [] && forall i :: 0 <= i < |parts| ==> IsElement(parts[i])
    ensures Split(JoinParts(parts)) == parts
  {
    SplitInvertsJoin(parts);
  }

  /** The relative path to the directory itself is ".", and only to it. */
  lemma RelOfSelf(base: string, target: string)
    ensures Rel(base, target) == Some(".") <==> Cleaned(base) == Cleaned(target)
  {
    CleanedIsClean(base);
    CleanedIsClean(target);
    var b, p := Cleaned(base), Cleaned(target);
    if b != p && RelOf(b, p).Some? {
      RelSplits(b, p);
      SplitElement(".");
      RelPartsAreElements(b.parts, p.parts, Common(b.parts, p.parts));
      DotIsNoElement(RelParts(b.parts, p.parts, Common(b.parts, p.parts)));
    }
  }

  lemma DotIsNoElement(parts: seq<string>)
    requires forall i :: 0 <= i < |parts| ==> IsElement(parts[i])
    ensures parts != ["."]
  {
    assert parts != [] ==> parts[0] != ".";
  }

  // ---- what joining and the alias mean ----

  /** Joining a directory and a name, which may be a path, leads where the name leads from the directory. */
  lemma JoinLeadsThere(t: Tree, dir: string, name: string)
    requires LinkFree(t)
    ensures dir != "" ==> Resolve(t, Join(dir, name)) == Follow(t, Resolve(t, dir), Split(name))
    ensures dir == "" && name != "" ==> Resolve(t, Join(dir, name)) == Resolve(t, name)
    ensures Join("", "") == ""
  {
    if dir != "" {
      if name == "" {
        CleanKeepsTheMeaning(t, dir);
        FollowNothing(t, Resolve(t, dir));
      } else {
        CleanKeepsTheMeaning(t, dir + "/" + name);
        AppendedLeadsOn(t, dir, name);
      }
    } else if name != "" {
      CleanKeepsTheMeaning(t, name);
    }
  }

  lemma FollowNothing(t: Tree, d: Place)
    ensures Follow(t, d, [""]) == d
  {
    assert [""][..0] == [];
  }

  lemma AppendedLeadsOn(t: Tree, dir: string, name: string)
    requires dir != ""
    ensures Resolve(t, dir + "/" + name) == Follow(t, Resolve(t, dir), Split(name))
  {
    AppendedCleaned(dir, name);
    SplitSum(dir, name);
    FollowSum(t, Origin(t, Cleaned(dir).rooted), Split(dir), Split(name));
  }

  /** The alias stands for the dropzone directory, at the start of a path and nowhere else. */
  lemma AliasLeadsThere(t: Tree, dropzone: string, path: string)
    requires LinkFree(t) && dropzone != ""
    ensures path == ALIAS ==> ResolveAgentPath(dropzone, path) == dropzone
    ensures HasPrefix(path, ALIAS + "/") ==>
              Resolve(t, ResolveAgentPath(dropzone, path)) == Follow(t, Resolve(t, dropzone), Split(Clean(path[|ALIAS| + 1..])))
    ensures path != ALIAS && !HasPrefix(path, ALIAS + "/") ==> ResolveAgentPath(dropzone, path) == path
  {
    if HasPrefix(path, ALIAS + "/") {
      assert |path| > |ALIAS|;
      JoinLeadsThere(t, dropzone, Clean(path[|ALIAS| + 1..]));
    }
  }

  /** The alias itself names the directory, which is never deleted. */
  lemma DropzoneIsNotDeleted(dropzone: string)
    ensures !MayDelete(dropzone, ALIAS)
  {
    MayDeleteIffContinues(dropzone, ALIAS);
  }

  lemma RelOfLeadsThere(t: Tree, b: Path, p: Path, at: Place, rel: Option<string>)
    requires LinkFree(t) && IsClean(b) && IsClean(p)
    requires at == Follow(t, Origin(t, b.rooted), b.parts) && rel == RelOf(b, p) && rel.Some?
    ensures Follow(t, at, Split(rel.value)) == Follow(t, Origin(t, p.rooted), p.parts)
  {
    if b == p {
      SplitElement(".");
      FollowDot(t, at);
    } else {
      RelSplits(b, p);
      RelPartsLeadThere(t, b, p, Common(b.parts, p.parts));
    }
  }

  lemma FollowDot(t: Tree, d: Place)
    ensures Follow(t, d, ["."]) == d
  {
    assert ["."][..0] == [];
  }

  lemma RelPartsLeadThere(t: Tree, b: Path, p: Path, k: nat)
    requires LinkFree(t) && IsClean(b) && b != p && b.rooted == p.rooted
    requires k <= |b.parts| && k <= |p.parts| && b.parts[..k] == p.parts[..k] && (k < |b.parts| ==> b.parts[k] != "..")
    ensures RelParts(b.parts, p.parts, k) != []
    ensures var o := Origin(t, b.rooted);
            Follow(t, Follow(t, o, b.parts), RelParts(b.parts, p.parts, k)) == Follow(t, o, p.parts)
  {
    RelIsNotEmpty(b, p, k);
    forall i | 0 <= i < |b.parts[k..]| ensures IsEntryName(b.parts[k..][i]) {
      assert b.parts[k..][i] == b.parts[k + i] && IsElement(b.parts[k + i]);
    }
    OverAndDown(t, Origin(t, b.rooted), b.parts[..k], b.parts[k..], p.parts[k..]);
    assert b.parts == b.parts[..k] + b.parts[k..] && p.parts == b.parts[..k] + p.parts[k..];
  }

  lemma RelIsNotEmpty(b: Path, p: Path, k: nat)
    requires b != p && b.rooted == p.rooted && k <= |b.parts| && k <= |p.parts| && b.parts[..k] == p.parts[..k]
    ensures RelParts(b.parts, p.parts, k) != []
  {
    UpsAreUps(|b.parts| - k);
    assert b.parts == b.parts[..k] + b.parts[k..] && p.parts == p.parts[..k] + p.parts[k..];
  }

  /** Up again through every entry of `down`, then on through `tail`. */
  lemma OverAndDown(t: Tree, d: Place, common: seq<string>, down: seq<string>, tail: seq<string>)
    requires LinkFree(t) && AllEntries(down)
    ensures Follow(t, Follow(t, d, common + down), Ups(|down|) + tail) == Follow(t, d, common + tail)
  {
    FollowSum(t, d, common, down);
    FollowUps(t, Follow(t, d, common), down);
    FollowSum(t, Follow(t, d, common + down), Ups(|down|), tail);
    FollowSum(t, d, common, tail);
  }
}
