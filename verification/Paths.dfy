/**
 Lexical path handling with Go's filepath.Clean, Join and Rel on slash-separated paths: the containment
 tests of the hub (hub/internal/server/handlers_files.go) and of the agent (agent/internal/client/client.go).
 */
module Paths {
  import opened Keys
  import opened Options

  const SLASH := '/'

  /** The elements between the slashes, empty ones included. */
  function Split(s: string): (parts: seq<string>)
    ensures parts != []
  {
    if s == "" then [""]
    else
      var before := Split(s[..|s| - 1]);
      var c := s[|s| - 1];
      if c == SLASH then before + [""] else before[..|before| - 1] + [before[|before| - 1] + [c]]
  }

  /** A cleaned path: whether it is absolute, and its elements. */
  datatype Path = Path(rooted: bool, parts: seq<string>)

  function Push(rooted: bool, parts: seq<string>, e: string): seq<string> {
    if e == "" || e == "." then parts
    else if e != ".." then parts + [e]
    else if parts != [] && parts[|parts| - 1] != ".." then parts[..|parts| - 1]
    else if rooted then parts
    else parts + [".."]
  }

  function Walk(rooted: bool, from: seq<string>, elements: seq<string>): seq<string> {
    if elements == [] then from
    else Push(rooted, Walk(rooted, from, elements[..|elements| - 1]), elements[|elements| - 1])
  }

  /** filepath.Clean, as elements. */
  function Cleaned(s: string): Path {
    var rooted := HasPrefix(s, "/");
    Path(rooted, Walk(rooted, [], Split(s)))
  }

  function JoinParts(parts: seq<string>): string {
    if parts == [] then ""
    else if |parts| == 1 then parts[0]
    else JoinParts(parts[..|parts| - 1]) + "/" + parts[|parts| - 1]
  }

  function Render(p: Path): string {
    if p.rooted then "/" + JoinParts(p.parts)
    else if p.parts == [] then "."
    else JoinParts(p.parts)
  }

  function Clean(s: string): string { Render(Cleaned(s)) }

  /** filepath.Join of a directory and a further element; empty elements are left out. */
  function Join(dir: string, name: string): string {
    if dir == "" && name == "" then ""
    else if dir == "" then Clean(name)
    else if name == "" then Clean(dir)
    else Clean(dir + "/" + name)
  }

  function Common(a: seq<string>, b: seq<string>): (k: nat)
    ensures k <= |a| && k <= |b| && a[..k] == b[..k]
    ensures k < |a| && k < |b| ==> a[k] != b[k]
  {
    if a == [] || b == [] || a[0] != b[0] then 0 else 1 + Common(a[1..], b[1..])
  }

  function Ups(n: nat): seq<string> {
    if n == 0 then [] else Ups(n - 1) + [".."]
  }

  /** filepath.Rel on cleaned paths; None is its error. */
  function RelOf(b: Path, t: Path): Option<string> {
    if b == t then Some(".")
    else if b.rooted != t.rooted then None
    else
      var k := Common(b.parts, t.parts);
      if k < |b.parts| && b.parts[k] == ".." then None
      else Some(JoinParts(Ups(|b.parts| - k) + t.parts[k..]))
  }

  function Rel(base: string, target: string): Option<string> { RelOf(Cleaned(base), Cleaned(target)) }

  predicate StaysInside(rel: Option<string>) {
    rel.Some? && (rel.value == "." || (!HasPrefix(rel.value, "../") && rel.value != ".."))
  }

  /** pathWithinRoot on the agent, and the same test inside the hub's isPathAllowed. */
  predicate WithinRoot(path: string, root: string) { StaysInside(Rel(root, path)) }

  // ---- cleaned paths ----

  predicate IsElement(e: string) {
    SLASH !in e && e != "" && e != "."
  }

  /** Proper elements; ".." only in a relative path and only in front. */
  predicate IsClean(p: Path) {
    && (forall i :: 0 <= i < |p.parts| ==> IsElement(p.parts[i]))
    && (forall i :: 0 <= i < |p.parts| && p.parts[i] == ".." ==> !p.rooted && (forall j :: 0 <= j < i ==> p.parts[j] == ".."))
  }

  lemma {:induction false} SplitHasNoSlashes(s: string)
    ensures forall i :: 0 <= i < |Split(s)| ==> SLASH !in Split(s)[i]
  {
    if s != "" {
      SplitHasNoSlashes(s[..|s| - 1]);
    }
  }

  lemma PushIsClean(rooted: bool, parts: seq<string>, e: string)
    requires IsClean(Path(rooted, parts)) && SLASH !in e
    ensures IsClean(Path(rooted, Push(rooted, parts, e)))
  {
  }

  lemma {:induction false} WalkIsClean(rooted: bool, from: seq<string>, elements: seq<string>)
    requires IsClean(Path(rooted, from)) && forall i :: 0 <= i < |elements| ==> SLASH !in elements[i]
    ensures IsClean(Path(rooted, Walk(rooted, from, elements)))
  {
    if elements != [] {
      WalkIsClean(rooted, from, elements[..|elements| - 1]);
      PushIsClean(rooted, Walk(rooted, from, elements[..|elements| - 1]), elements[|elements| - 1]);
    }
  }

  lemma CleanedIsClean(s: string)
    ensures IsClean(Cleaned(s))
  {
    SplitHasNoSlashes(s);
    WalkIsClean(Cleaned(s).rooted, [], Split(s));
  }

  // ---- splitting and joining ----

  /** One more character goes to the last element or starts a new one. */
  function Grown(parts: seq<string>, c: char): seq<string>
    requires parts != []
  {
    if c == SLASH then parts + [""] else parts[..|parts| - 1] + [parts[|parts| - 1] + [c]]
  }

  lemma SplitPush(s: string, c: char)
    ensures Split(s + [c]) == Grown(Split(s), c)
  {
    assert (s + [c])[..|s|] == s;
  }

  lemma GrownSum(x: seq<string>, y: seq<string>, c: char)
    requires y != []
    ensures Grown(x + y, c) == x + Grown(y, c)
  {
    assert (x + y)[..|x + y| - 1] == x + y[..|y| - 1];
  }

  lemma {:induction false} SplitSum(a: string, b: string)
    ensures Split(a + "/" + b) == Split(a) + Split(b)
  {
    if b == "" {
      assert a + "/" + b == a + [SLASH];
      SplitPush(a, SLASH);
    } else {
      var front, c := b[..|b| - 1], b[|b| - 1];
      SplitSum(a, front);
      assert b == front + [c] && a + "/" + b == (a + "/" + front) + [c];
      SplitPush(a + "/" + front, c);
      SplitPush(front, c);
      GrownSum(Split(a), Split(front), c);
    }
  }

  lemma {:induction false} SplitElement(e: string)
    requires SLASH !in e
    ensures Split(e) == [e]
  {
    if e != "" {
      SplitElement(e[..|e| - 1]);
      assert e == e[..|e| - 1] + [e[|e| - 1]];
    }
  }

  lemma JoinPush(a: seq<string>, e: string)
    requires a != []
    ensures JoinParts(a + [e]) == JoinParts(a) + "/" + e
  {
    assert (a + [e])[..|a|] == a;
  }

  lemma SplitOneMore(s: string, front: seq<string>, e: string)
    requires Split(s) == front && SLASH !in e
    ensures Split(s + "/" + e) == front + [e]
  {
    SplitElement(e);
    SplitSum(s, e);
  }

  lemma {:induction false} SplitInvertsJoin(parts: seq<string>)
    requires parts != [] && forall i :: 0 <= i < |parts| ==> SLASH !in parts[i]
    ensures Split(JoinParts(parts)) == parts
  {
    var front, e := parts[..|parts| - 1], parts[|parts| - 1];
    if front == [] {
      SplitElement(e);
      assert parts == [e];
    } else {
      SplitInvertsJoin(front);
      SplitOneMore(JoinParts(front), front, e);
      JoinPush(front, e);
      assert parts == front + [e];
    }
  }

  lemma {:induction false} WalkSum(rooted: bool, from: seq<string>, a: seq<string>, b: seq<string>)
    ensures Walk(rooted, from, a + b) == Walk(rooted, Walk(rooted, from, a), b)
  {
    if b == [] {
      assert a + b == a;
    } else {
      WalkSum(rooted, from, a, b[..|b| - 1]);
      assert (a + b)[..|a + b| - 1] == a + b[..|b| - 1];
    }
  }

  lemma {:induction false} WalkOfClean(p: Path)
    requires IsClean(p)
    ensures Walk(p.rooted, [], p.parts) == p.parts
    decreases |p.parts|
  {
    if p.parts != [] {
      var n := |p.parts| - 1;
      WalkOfClean(Path(p.rooted, p.parts[..n]));
      assert IsElement(p.parts[n]);
      assert p.parts == p.parts[..n] + [p.parts[n]];
      if p.parts[n] == ".." && n > 0 {
        assert p.parts[n - 1] == "..";
      }
    }
  }

  lemma {:induction false} JoinedNotEmpty(parts: seq<string>)
    requires parts != [] && forall i :: 0 <= i < |parts| ==> IsElement(parts[i])
    ensures IsElement(parts[0]) && JoinParts(parts) != "" && JoinParts(parts)[0] == parts[0][0]
  {
    var n := |parts| - 1;
    assert IsElement(parts[0]);
    if n > 0 {
      JoinedNotEmpty(parts[..n]);
    }
  }

  lemma CleanedBy(s: string, elements: seq<string>, p: Path)
    requires s != "" && (s[0] == SLASH <==> p.rooted) && Split(s) == elements && Walk(p.rooted, [], elements) == p.parts
    ensures Cleaned(s) == p
  {
    assert HasPrefix(s, "/") <==> s[0] == SLASH by { assert s[..1] == [s[0]]; }
  }

  lemma CleanedRelative(parts: seq<string>)
    requires parts != [] && IsClean(Path(false, parts))
    ensures Cleaned(JoinParts(parts)) == Path(false, parts)
  {
    WalkOfClean(Path(false, parts));
    SplitInvertsJoin(parts);
    JoinedNotEmpty(parts);
    assert parts[0][0] in parts[0];
    CleanedBy(JoinParts(parts), parts, Path(false, parts));
  }

  lemma SplitAbsolute(s: string, parts: seq<string>)
    requires Split(s) == parts
    ensures Split("/" + s) == [""] + parts
  {
    SplitSum("", s);
    assert "" + "/" + s == "/" + s;
  }

  lemma WalkAbsolute(parts: seq<string>)
    requires Walk(true, [], parts) == parts
    ensures Walk(true, [], [""] + parts) == parts
  {
    WalkSum(true, [], [""], parts);
    WalkEmpty(true, []);
  }

  lemma CleanedAbsolute(parts: seq<string>)
    requires parts != [] && IsClean(Path(true, parts))
    ensures Cleaned("/" + JoinParts(parts)) == Path(true, parts)
  {
    WalkOfClean(Path(true, parts));
    WalkAbsolute(parts);
    SplitInvertsJoin(parts);
    SplitAbsolute(JoinParts(parts), parts);
    CleanedBy("/" + JoinParts(parts), [""] + parts, Path(true, parts));
  }

  lemma WalkEmpty(rooted: bool, from: seq<string>)
    ensures Walk(rooted, from, [""]) == from
  {
    assert [""][..0] == [];
  }

  /** Rendering loses nothing: cleaning a cleaned path gives the same path. */
  lemma CleanedRender(p: Path)
    requires IsClean(p)
    ensures Cleaned(Render(p)) == p
  {
    if p.parts == [] {
      RootIsEmpty();
      DotIsEmpty();
    } else if p.rooted {
      CleanedAbsolute(p.parts);
    } else {
      CleanedRelative(p.parts);
    }
  }

  lemma RootIsEmpty()
    ensures Cleaned("/") == Path(true, [])
  {
    SplitSum("", "");
    assert "" + "/" + "" == "/" && Split("/") == ["", ""];
    assert Walk(true, [], ["", ""][..1]) == [];
  }

  lemma DotIsEmpty()
    ensures Cleaned(".") == Path(false, [])
  {
    SplitElement(".");
    assert Walk(false, [], ["."]) == Push(false, Walk(false, [], ["."][..0]), ".");
  }

  lemma CleanIsIdempotent(s: string)
    ensures Clean(Clean(s)) == Clean(s) && Cleaned(Clean(s)) == Cleaned(s)
  {
    CleanedIsClean(s);
    CleanedRender(Cleaned(s));
  }

  // ---- containment ----

  /** The root's elements are a prefix of the path's and the rest does not climb out. */
  predicate Below(p: Path, root: Path) {
    && p.rooted == root.rooted && root.parts <= p.parts
    && (|root.parts| < |p.parts| ==> p.parts[|root.parts|] != "..")
  }

  lemma {:induction false} ClimbsIffFirst(parts: seq<string>)
    requires parts != [] && forall i :: 0 <= i < |parts| ==> IsElement(parts[i])
    ensures HasPrefix(JoinParts(parts), "../") || JoinParts(parts) == ".." <==> parts[0] == ".."
    ensures JoinParts(parts) != "."
    ensures |parts| > 1 ==> HasPrefix(JoinParts(parts), parts[0] + "/")
  {
    var n := |parts| - 1;
    var s := JoinParts(parts);
    assert IsElement(parts[0]) && IsElement(parts[n]);
    if n == 0 {
      assert forall i :: 0 <= i < |s| ==> s[i] != SLASH;
      assert "../"[2] == SLASH;
    } else {
      ClimbsIffFirst(parts[..n]);
      var first := parts[0];
      if n == 1 {
        assert s == first + "/" + parts[1];
      } else {
        assert s[..|first| + 1] == JoinParts(parts[..n])[..|first| + 1];
      }
      assert s[..|first| + 1] == first + "/" && s[|first|] == SLASH;
      if HasPrefix(s, "../") && first != ".." {
        FirstSlash(s, first, "..");
      }
    }
  }

  /** Two slash-free names that a slash follows at the start of the same string are the same name. */
  lemma FirstSlash(s: string, a: string, b: string)
    requires SLASH !in a && SLASH !in b && HasPrefix(s, a + "/") && HasPrefix(s, b + "/")
    ensures a == b
  {
    assert s[|a|] == SLASH && s[|b|] == SLASH && s[..|a|] == a && s[..|b|] == b;
    assert forall i :: 0 <= i < |a| ==> s[i] == a[i];
    assert forall i :: 0 <= i < |b| ==> s[i] == b[i];
    assert |a| == |b|;
  }

  lemma {:induction false} UpsAreUps(n: nat)
    ensures |Ups(n)| == n && forall i :: 0 <= i < n ==> Ups(n)[i] == ".."
  {
    if n > 0 { UpsAreUps(n - 1); }
  }

  lemma PrefixIffCommon(a: seq<string>, b: seq<string>)
    ensures a <= b <==> Common(a, b) == |a|
  {
    var k := Common(a, b);
    if a <= b {
      assert forall i :: 0 <= i < |a| ==> a[i] == b[i];
    }
  }

  /** The elements of the relative path from b to t, whose first k elements agree. */
  function RelParts(b: seq<string>, t: seq<string>, k: nat): seq<string>
    requires k <= |b| && k <= |t|
  {
    Ups(|b| - k) + t[k..]
  }

  lemma RelPartsAreElements(b: seq<string>, t: seq<string>, k: nat)
    requires k <= |b| && k <= |t| && forall i :: 0 <= i < |t| ==> IsElement(t[i])
    ensures forall i :: 0 <= i < |RelParts(b, t, k)| ==> IsElement(RelParts(b, t, k)[i])
    ensures k < |b| ==> RelParts(b, t, k)[0] == ".."
    ensures k == |b| ==> RelParts(b, t, k) == t[k..]
  {
    var rel := RelParts(b, t, k);
    var n := |b| - k;
    UpsAreUps(n);
    forall i | 0 <= i < |rel| ensures IsElement(rel[i]) {
      if i >= n {
        assert rel[i] == t[k + i - n];
      }
    }
  }

  /** The test on the rendered relative path is a test on its first element. */
  lemma RelTest(b: seq<string>, t: seq<string>, k: nat)
    requires k <= |b| && k <= |t| && (k < |b| || k < |t|) && forall i :: 0 <= i < |t| ==> IsElement(t[i])
    ensures var s := JoinParts(RelParts(b, t, k));
            (s == "." || (!HasPrefix(s, "../") && s != "..")) <==> k == |b| && t[k] != ".."
  {
    RelPartsAreElements(b, t, k);
    var rel := RelParts(b, t, k);
    assert |rel| == |b| - k + |t| - k by { UpsAreUps(|b| - k); }
    ClimbsIffFirst(rel);
  }

  lemma InsideIffBelow(b: Path, t: Path)
    requires IsClean(t)
    ensures StaysInside(RelOf(b, t)) <==> Below(t, b)
  {
    var k := Common(b.parts, t.parts);
    PrefixIffCommon(b.parts, t.parts);
    assert k == |b.parts| == |t.parts| ==> b.parts == b.parts[..k] == t.parts[..k] == t.parts;
    if b != t && b.rooted == t.rooted {
      RelTest(b.parts, t.parts, k);
    }
  }

  /**
   The string tests on filepath.Rel say what they are meant to say: a path is within a root exactly when,
   both cleaned, the root's elements are a prefix of the path's. A file called "..x" does not confuse them.
   */
  lemma WithinIffBelow(path: string, root: string)
    ensures WithinRoot(path, root) <==> Below(Cleaned(path), Cleaned(root))
  {
    CleanedIsClean(path);
    InsideIffBelow(Cleaned(root), Cleaned(path));
  }

  /** For absolute paths that is the prefix relation alone. */
  lemma AbsoluteWithinIffPrefix(path: string, root: string)
    requires HasPrefix(path, "/") && HasPrefix(root, "/")
    ensures WithinRoot(path, root) <==> Cleaned(root).parts <= Cleaned(path).parts
  {
    WithinIffBelow(path, root);
    CleanedIsClean(path);
  }

  /** Containment is a preorder: what is within something within a root is within the root. */
  lemma WithinIsTransitive(a: string, b: string, c: string)
    requires WithinRoot(a, b) && WithinRoot(b, c)
    ensures WithinRoot(a, c)
  {
    WithinIffBelow(a, b);
    WithinIffBelow(b, c);
    WithinIffBelow(a, c);
  }

  // ---- children ----

  /** A name a directory listing can contain. */
  predicate IsEntryName(name: string) {
    IsElement(name) && name != ".."
  }

  lemma JoinAppends(dir: string, name: string)
    requires dir != "" && IsEntryName(name)
    ensures Cleaned(Join(dir, name)) == Path(Cleaned(dir).rooted, Cleaned(dir).parts + [name])
  {
    var s := dir + "/" + name;
    SplitSum(dir, name);
    SplitElement(name);
    var rooted := Cleaned(dir).rooted;
    assert HasPrefix(s, "/") <==> rooted by { assert s[0] == dir[0]; }
    WalkSum(rooted, [], Split(dir), [name]);
    assert Walk(rooted, Cleaned(dir).parts, [name]) ==
           Push(rooted, Walk(rooted, Cleaned(dir).parts, [name][..0]), name);
    CleanIsIdempotent(s);
  }

  /** Every path ListDir reports for an entry of an allowed directory is allowed again, and differs from the directory. */
  lemma ChildIsWithin(dir: string, name: string, root: string)
    requires dir != "" && IsEntryName(name) && WithinRoot(dir, root)
    ensures WithinRoot(Join(dir, name), root) && WithinRoot(Join(dir, name), dir) && Clean(Join(dir, name)) != Clean(dir)
  {
    WithinIffBelow(dir, root);
    JoinAppends(dir, name);
    WithinIffBelow(Join(dir, name), root);
    WithinIffBelow(Join(dir, name), dir);
    CleanIsIdempotent(dir);
    CleanIsIdempotent(Join(dir, name));
    assert |Cleaned(Join(dir, name)).parts| != |Cleaned(dir).parts|;
  }

  // ---- the dropzone ----

  const ALIAS := "veyport://dropzone"

  /** resolveAgentPath: requests name the dropzone by its alias. */
  function ResolveAgentPath(dropzone: string, path: string): string {
    if path == ALIAS then dropzone
    else if HasPrefix(path, ALIAS + "/") then Join(dropzone, Clean(path[|ALIAS| + 1..]))
    else path
  }

  /** The test of handleFileDeleteRequest. */
  predicate MayDelete(dropzone: string, path: string) {
    HasPrefix(Clean(ResolveAgentPath(dropzone, path)), Clean(dropzone) + "/")
  }

  /** d's elements are a proper prefix of p's, whatever follows. */
  predicate Continues(p: Path, d: Path) {
    p.rooted == d.rooted && d.parts < p.parts
  }

  /** p lies below d and is not d. */
  predicate StrictlyBelow(p: Path, d: Path) {
    Below(p, d) && p != d
  }

  lemma {:induction false} JoinOfSum(a: seq<string>, b: seq<string>)
    requires a != [] && b != []
    ensures JoinParts(a + b) == JoinParts(a) + "/" + JoinParts(b)
  {
    var front, e := b[..|b| - 1], b[|b| - 1];
    assert a + b == (a + front) + [e];
    JoinPush(a + front, e);
    if front == [] {
      assert a + front == a;
    } else {
      JoinOfSum(a, front);
    }
  }

  predicate NoSlashes(parts: seq<string>) {
    forall i :: 0 <= i < |parts| ==> SLASH !in parts[i]
  }

  lemma JoinPrefixIff(p: seq<string>, d: seq<string>)
    requires p != [] && d != [] && NoSlashes(p) && NoSlashes(d)
    ensures HasPrefix(JoinParts(p), JoinParts(d) + "/") <==> d < p
  {
    var s, t := JoinParts(p), JoinParts(d) + "/";
    if d < p {
      assert p == d + p[|d|..];
      JoinOfSum(d, p[|d|..]);
    }
    if HasPrefix(s, t) {
      var r := s[|t|..];
      assert s == JoinParts(d) + "/" + r;
      SplitSum(JoinParts(d), r);
      SplitInvertsJoin(d);
      SplitInvertsJoin(p);
    }
  }

  lemma RenderStarts(p: Path)
    requires IsClean(p)
    ensures Render(p) != "" && (Render(p)[0] == SLASH <==> p.rooted)
  {
    if p.parts != [] {
      JoinedNotEmpty(p.parts);
      assert p.parts[0][0] in p.parts[0];
    }
  }

  lemma RenderedPrefixIff(p: Path, d: Path)
    requires IsClean(p) && IsClean(d)
    ensures HasPrefix(Render(p), Render(d) + "/") <==> d.parts != [] && Continues(p, d)
  {
    RenderStarts(p);
    RenderStarts(d);
    assert HasPrefix(Render(p), Render(d) + "/") ==> Render(p)[0] == (Render(d) + "/")[0] == Render(d)[0];
    if p.rooted != d.rooted {
    } else if p.parts == [] {
      assert |Render(p)| == 1;
    } else if d.parts == [] {
      NothingIsBelowNothing(p);
    } else {
      JoinPrefixIff(p.parts, d.parts);
      if p.rooted {
        RootedPrefix(JoinParts(p.parts), JoinParts(d.parts) + "/");
        assert Render(d) + "/" == "/" + (JoinParts(d.parts) + "/");
      }
    }
  }

  /** The root renders as "/" and the empty path as ".", so neither is a prefix once a slash follows it. */
  lemma NothingIsBelowNothing(p: Path)
    requires IsClean(p) && p.parts != []
    ensures !HasPrefix(Render(p), Render(Path(p.rooted, [])) + "/")
  {
    JoinedNotEmpty(p.parts);
    assert p.parts[0][0] in p.parts[0];
    if p.rooted {
      assert Render(p)[1] == p.parts[0][0];
      assert ("/" + "/")[1] == SLASH;
    } else {
      DotSlashIsNoPrefix(p.parts);
      assert Render(Path(false, [])) + "/" == "./";
    }
  }

  lemma RootedPrefix(s: string, t: string)
    ensures HasPrefix("/" + s, "/" + t) <==> HasPrefix(s, t)
  {
    if |t| <= |s| {
      assert ("/" + s)[..|t| + 1] == "/" + s[..|t|];
      assert ("/" + t)[1..] == t && ("/" + s[..|t|])[1..] == s[..|t|];
    }
  }

  lemma FirstPart(parts: seq<string>, x: string)
    requires |parts| > 1 && (forall i :: 0 <= i < |parts| ==> IsElement(parts[i])) && SLASH !in x
    requires HasPrefix(JoinParts(parts), x + "/")
    ensures parts[0] == x
  {
    assert IsElement(parts[0]);
    ClimbsIffFirst(parts);
    FirstSlash(JoinParts(parts), parts[0], x);
  }

  lemma DotSlashIsNoPrefix(parts: seq<string>)
    requires parts != [] && forall i :: 0 <= i < |parts| ==> IsElement(parts[i])
    ensures !HasPrefix(JoinParts(parts), "./")
  {
    assert IsElement(parts[0]);
    var s := JoinParts(parts);
    assert "./" == "." + "/" && "./"[1] == SLASH;
    if |parts| == 1 {
      assert forall i :: 0 <= i < |s| ==> s[i] != SLASH;
    } else if HasPrefix(s, "." + "/") {
      FirstPart(parts, ".");
    }
  }

  /** What the prefix test on the cleaned strings amounts to. */
  lemma MayDeleteIffContinues(dropzone: string, path: string)
    ensures MayDelete(dropzone, path) <==>
              Cleaned(dropzone).parts != [] && Continues(Cleaned(ResolveAgentPath(dropzone, path)), Cleaned(dropzone))
  {
    CleanedIsClean(dropzone);
    CleanedIsClean(ResolveAgentPath(dropzone, path));
    RenderedPrefixIff(Cleaned(ResolveAgentPath(dropzone, path)), Cleaned(dropzone));
  }

  /** The directory cannot be left by going on from it: cleaned, it does not end in "..". */
  predicate Anchored(dropzone: string) {
    var d := Cleaned(dropzone).parts;
    d == [] || d[|d| - 1] != ".."
  }

  lemma ContinuesIsBelow(p: Path, d: Path)
    requires IsClean(p) && d.parts != [] && d.parts[|d.parts| - 1] != ".."
    ensures Continues(p, d) <==> StrictlyBelow(p, d)
  {
    if Continues(p, d) {
      var n := |d.parts|;
      assert p.parts[n - 1] == d.parts[n - 1];
    }
    assert d.parts <= p.parts && p.parts != d.parts ==> d.parts < p.parts;
  }

  /**
   For an anchored dropzone, an absolute one in particular: whatever path a request names, alias and ".."
   included, it is deleted only when it resolves to something strictly below the dropzone directory,
   never the directory itself or anything beside it.
   */
  lemma MayDeleteIffStrictlyBelow(dropzone: string, path: string)
    requires Anchored(dropzone)
    ensures MayDelete(dropzone, path) <==>
              Cleaned(dropzone).parts != [] && StrictlyBelow(Cleaned(ResolveAgentPath(dropzone, path)), Cleaned(dropzone))
  {
    MayDeleteIffContinues(dropzone, path);
    CleanedIsClean(ResolveAgentPath(dropzone, path));
    if Cleaned(dropzone).parts != [] {
      ContinuesIsBelow(Cleaned(ResolveAgentPath(dropzone, path)), Cleaned(dropzone));
    }
  }

  ghost predicate DeletesOnlyBelow(dropzone: string) {
    forall path {:trigger MayDelete(dropzone, path)} ::
      MayDelete(dropzone, path) ==> StrictlyBelow(Cleaned(ResolveAgentPath(dropzone, path)), Cleaned(dropzone))
  }

  /** From a directory that ends in ".." one more ".." is accepted. */
  lemma ClimbingDropzoneDeletesOutside(dropzone: string)
    requires !Anchored(dropzone)
    ensures var path := Render(Path(false, Cleaned(dropzone).parts + [".."]));
            MayDelete(dropzone, path) && !StrictlyBelow(Cleaned(ResolveAgentPath(dropzone, path)), Cleaned(dropzone))
  {
    var d := Cleaned(dropzone);
    CleanedIsClean(dropzone);
    var p := Path(false, d.parts + [".."]);
    assert forall i :: 0 <= i < |p.parts| ==> p.parts[i] == "..";
    CleanedRender(p);
    var path := Render(p);
    ClimbsIffFirst(p.parts);
    assert path[0] == '.' && ALIAS[0] == 'v' && (ALIAS + "/")[0] == 'v';
    assert ResolveAgentPath(dropzone, path) == path;
    MayDeleteIffContinues(dropzone, path);
    assert Continues(p, d);
  }

  /** The smallest such case: a dropzone ".." lets "../.." be deleted. */
  lemma DotDotDropzone()
    ensures MayDelete("..", "../..") && !StrictlyBelow(Cleaned("../.."), Cleaned(".."))
  {
    var d := Path(false, [".."]);
    assert Render(d) == "..";
    CleanedRender(d);
    assert d.parts + [".."] == ["..", ".."];
    assert ["..", ".."][..1] == [".."];
    assert JoinParts([".."]) == ".." && JoinParts(["..", ".."]) == JoinParts(["..", ".."][..1]) + "/" + ".." == "../..";
    ClimbingDropzoneDeletesOutside("..");
  }

  /** Deletion stays strictly below the dropzone directory, for every request, exactly when the directory is anchored. */
  lemma DeletesOnlyBelowIff(dropzone: string)
    ensures DeletesOnlyBelow(dropzone) <==> Anchored(dropzone)
  {
    if Anchored(dropzone) {
      forall path | MayDelete(dropzone, path)
        ensures StrictlyBelow(Cleaned(ResolveAgentPath(dropzone, path)), Cleaned(dropzone))
      {
        MayDeleteIffStrictlyBelow(dropzone, path);
      }
    } else {
      ClimbingDropzoneDeletesOutside(dropzone);
    }
  }

  lemma {:induction false} WalkAppends(rooted: bool, from: seq<string>, more: seq<string>)
    requires forall i :: 0 <= i < |more| ==> IsEntryName(more[i])
    ensures Walk(rooted, from, more) == from + more
  {
    if more != [] {
      var n := |more| - 1;
      WalkAppends(rooted, from, more[..n]);
      assert IsEntryName(more[n]);
      assert more == more[..n] + [more[n]];
    }
  }

  lemma SplitRendered(p: Path)
    requires IsClean(p) && p.parts != []
    ensures Split(Render(p)) == if p.rooted then [""] + p.parts else p.parts
  {
    SplitInvertsJoin(p.parts);
    if p.rooted {
      SplitSum("", JoinParts(p.parts));
      assert "" + "/" + JoinParts(p.parts) == "/" + JoinParts(p.parts);
    }
  }

  /** A suffix that stays inside, once cleaned, is what gets appended to the directory. */
  lemma SuffixIsAppended(dir: string, rel: string)
    requires dir != "" && Cleaned(rel).parts != []
    requires forall i :: 0 <= i < |Cleaned(rel).parts| ==> Cleaned(rel).parts[i] != ".."
    ensures Cleaned(Join(dir, Clean(rel))) == Path(Cleaned(dir).rooted, Cleaned(dir).parts + Cleaned(rel).parts)
  {
    var q, d := Cleaned(rel), Cleaned(dir);
    CleanedIsClean(rel);
    SplitRendered(q);
    JoinedNotEmpty(q.parts);
    var s := dir + "/" + Render(q);
    assert HasPrefix(s, "/") <==> d.rooted by { assert s[0] == dir[0]; }
    SplitSum(dir, Render(q));
    WalkSum(d.rooted, [], Split(dir), Split(Render(q)));
    forall i | 0 <= i < |q.parts| ensures IsEntryName(q.parts[i]) {}
    WalkAppends(d.rooted, d.parts, q.parts);
    if q.rooted {
      WalkSum(d.rooted, d.parts, [""], q.parts);
      WalkEmpty(d.rooted, d.parts);
    }
    CleanIsIdempotent(s);
  }

  /** Every file of the dropzone can be deleted through the alias: the test refuses nothing that is inside. */
  lemma FilesInsideMayBeDeleted(dropzone: string, rel: string)
    requires dropzone != "" && Cleaned(dropzone).parts != [] && Cleaned(rel).parts != []
    requires forall i :: 0 <= i < |Cleaned(rel).parts| ==> Cleaned(rel).parts[i] != ".."
    ensures MayDelete(dropzone, ALIAS + "/" + rel)
  {
    var path := ALIAS + "/" + rel;
    assert path[..|ALIAS| + 1] == ALIAS + "/" && path[|ALIAS| + 1..] == rel;
    SuffixIsAppended(dropzone, rel);
    MayDeleteIffContinues(dropzone, path);
  }

  // ---- the allowed roots ----

  /** Both sides clean the root before they compare; that changes nothing. */
  lemma CleanedRootTest(path: string, root: string)
    ensures WithinRoot(path, Clean(root)) <==> Below(Cleaned(path), Cleaned(root))
  {
    CleanIsIdempotent(root);
    WithinIffBelow(path, Clean(root));
  }

  /** The hub: a user without any root may access nothing. */
  method HubIsPathAllowed(requested: string, paths: seq<string>) returns (ok: bool)
    ensures ok <==> exists i :: 0 <= i < |paths| && Below(Cleaned(requested), Cleaned(paths[i]))
  {
    var cleanedReq := Clean(requested);
    CleanIsIdempotent(requested);
    var i := 0;
    while i < |paths|
      invariant i <= |paths|
      invariant forall j :: 0 <= j < i ==> !Below(Cleaned(requested), Cleaned(paths[j]))
    {
      CleanedRootTest(cleanedReq, paths[i]);
      if WithinRoot(cleanedReq, Clean(paths[i])) {
        return true;
      }
      i := i + 1;
    }
    ok := false;
  }

  /** How the file system resolves links; None when a path does not exist. */
  type Resolver = string -> Option<string>

  predicate UnderRoot(resolve: Resolver, path: string, allowed: string) {
    || Below(Cleaned(path), Cleaned(allowed))
    || (resolve(Clean(allowed)).Some? && Below(Cleaned(path), Cleaned(resolve(Clean(allowed)).value)))
  }

  predicate UnderSome(resolve: Resolver, path: string, allowed: seq<string>) {
    exists i :: 0 <= i < |allowed| && UnderRoot(resolve, path, allowed[i])
  }

  lemma RootTests(resolve: Resolver, path: string, allowed: string)
    ensures var root := Clean(allowed);
            UnderRoot(resolve, path, allowed) <==>
              WithinRoot(path, root) || (resolve(root).Some? && WithinRoot(path, Clean(resolve(root).value)))
  {
    CleanedRootTest(path, allowed);
    if resolve(Clean(allowed)).Some? {
      CleanedRootTest(path, resolve(Clean(allowed)).value);
    }
  }

  method AgentWithinAllowedRoots(path: string, allowed: seq<string>, resolve: Resolver) returns (ok: bool)
    ensures ok <==> UnderSome(resolve, path, allowed)
  {
    var i := 0;
    while i < |allowed|
      invariant i <= |allowed|
      invariant forall j :: 0 <= j < i ==> !UnderRoot(resolve, path, allowed[j])
    {
      var root := Clean(allowed[i]);
      RootTests(resolve, path, allowed[i]);
      if WithinRoot(path, root) {
        return true;
      }
      var resolved := resolve(root);
      if resolved.Some? && WithinRoot(path, Clean(resolved.value)) {
        return true;
      }
      i := i + 1;
    }
    ok := false;
  }

  predicate ResolvesUnderSome(resolve: Resolver, path: string, allowed: seq<string>) {
    && UnderSome(resolve, path, allowed)
    && (resolve(path).Some? ==> UnderSome(resolve, Clean(resolve(path).value), allowed))
  }

  /** The agent: without a list everything is allowed; otherwise the path and what it resolves to must be under a root. */
  method AgentIsPathAllowed(path: string, allowed: seq<string>, resolve: Resolver) returns (ok: bool)
    ensures ok == (allowed == [] || ResolvesUnderSome(resolve, Clean(path), allowed))
  {
    if |allowed| == 0 {
      return true;
    }
    var cleaned := Clean(path);
    var lexical := AgentWithinAllowedRoots(cleaned, allowed, resolve);
    if !lexical {
      return false;
    }
    var resolved := resolve(cleaned);
    if resolved.None? {
      return true;
    }
    ok := AgentWithinAllowedRoots(Clean(resolved.value), allowed, resolve);
  }

  /** Where nothing is a link, whether it exists or not, the two sides agree exactly on non-empty lists. */
  method SidesAgree(path: string, allowed: seq<string>, resolve: Resolver) returns (hub: bool, agent: bool)
    requires forall s :: resolve(s).None? || resolve(s) == Some(s)
    ensures hub == agent <==> allowed != []
  {
    hub := HubIsPathAllowed(path, allowed);
    agent := AgentIsPathAllowed(path, allowed, resolve);
    CleanIsIdempotent(path);
    CleanIsIdempotent(Clean(path));
    forall i | 0 <= i < |allowed|
      ensures UnderRoot(resolve, Clean(path), allowed[i]) <==> Below(Cleaned(path), Cleaned(allowed[i]))
    {
      CleanIsIdempotent(allowed[i]);
    }
    assert UnderSome(resolve, Clean(path), allowed) <==>
           exists i :: 0 <= i < |allowed| && Below(Cleaned(path), Cleaned(allowed[i]));
  }
}
