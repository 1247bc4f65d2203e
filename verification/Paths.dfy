/** Rooted file paths, handled lexically as Go's path/filepath does on a slash-separated system. */
module Paths {
  import opened Text

  type Path = string

  /** One component of a clean path. */
  predicate IsName(s: string) { s != "" && s != "." && s != ".." && '/' !in s }

  predicate Names(segments: seq<string>) {
    forall i :: 0 <= i < |segments| ==> IsName(segments[i])
  }

  function Rooted(segments: seq<string>): Path { "/" + Join(segments, '/') }

  function Segments(path: Path): seq<string>
    requires path != ""
  {
    if path == "/" then [] else Split(path[1..], '/')
  }

  /** Starts at the root, and has no empty, current or parent components. */
  predicate Clean(path: Path) { HasPrefix(path, "/") && Names(Segments(path)) }

  /** Lexical cleaning of the segments of a rooted path. */
  function CleanSegments(segments: seq<string>, done: seq<string>): seq<string>
    decreases |segments|
  {
    if segments == [] then done
    else
      var s := segments[0];
      CleanSegments(segments[1..],
        if s == "" || s == "." then done
        else if s == ".." then (if done == [] then done else done[..|done| - 1])
        else done + [s])
  }

  /** filepath.Abs, in a working directory. */
  function Abs(cwd: Path, path: string): Path {
    Rooted(CleanSegments(Split(if HasPrefix(path, "/") then path else cwd + "/" + path, '/'), []))
  }

  // ------------------------------------------------------------------------
  // Clean paths and their components
  // ------------------------------------------------------------------------

  lemma {:induction false} CleanedNames(segments: seq<string>, done: seq<string>)
    requires Names(done) && forall i :: 0 <= i < |segments| ==> '/' !in segments[i]
    ensures Names(CleanSegments(segments, done))
    decreases |segments|
  {
    if segments != [] {
      var s := segments[0];
      CleanedNames(segments[1..],
        if s == "" || s == "." then done
        else if s == ".." then (if done == [] then done else done[..|done| - 1])
        else done + [s]);
    }
  }

  lemma JoinedNotEmpty(segments: seq<string>)
    requires Names(segments) && segments != []
    ensures Join(segments, '/') != ""
  {
  }

  lemma RootedSegments(segments: seq<string>)
    requires Names(segments)
    ensures Segments(Rooted(segments)) == segments && Clean(Rooted(segments))
  {
    assert Rooted(segments)[1..] == Join(segments, '/');
    if segments != [] {
      JoinedNotEmpty(segments);
      SplitJoin(segments, '/');
    }
  }

  lemma SegmentsRooted(path: Path)
    requires Clean(path)
    ensures Rooted(Segments(path)) == path
  {
    if path != "/" {
      JoinSplit(path[1..], '/');
    }
  }

  lemma AbsIsClean(cwd: Path, path: string)
    ensures Clean(Abs(cwd, path))
  {
    var segments := Split(if HasPrefix(path, "/") then path else cwd + "/" + path, '/');
    CleanedNames(segments, []);
    RootedSegments(CleanSegments(segments, []));
  }

  // ------------------------------------------------------------------------
  // Containment
  // ------------------------------------------------------------------------

  /** p is the directory root or lies in it. */
  predicate Within(root: Path, p: Path) { p == root || root == "/" || HasPrefix(p, root + "/") }

  /** A path that starts with the text of the root lies in it if and only if the text that follows,
      if any, starts a new component. */
  lemma PrefixWithin(root: Path, p: Path)
    requires HasPrefix(p, root)
    ensures Within(root, p) <==> root == "/" || |p| == |root| || p[|root|] == '/'
  {
    if |p| > |root| {
      assert HasPrefix(p, root + "/") <==> p[|root|] == '/';
    }
  }

  lemma WithinGivesPrefix(root: Path, p: Path)
    requires Clean(root) && Clean(p) && root != "/" && HasPrefix(p, root + "/")
    ensures Segments(root) <= Segments(p)
  {
    var b, rest := Segments(root), p[|root| + 1..];
    SegmentsRooted(root);
    assert p == root + "/" + rest;
    assert p[1..] == Join(b, '/') + ['/'] + rest;
    SplitAppend(b, rest, '/');
  }

  lemma PrefixGivesWithin(b: seq<string>, more: seq<string>)
    requires b != [] && more != []
    ensures HasPrefix(Rooted(b + more), Rooted(b) + "/")
  {
    JoinAppend(b, more, '/');
    assert Rooted(b + more) == Rooted(b) + "/" + Join(more, '/');
  }

  /** Containment compares components. */
  lemma WithinIsPrefix(root: Path, p: Path)
    requires Clean(root) && Clean(p)
    ensures Within(root, p) <==> Segments(root) <= Segments(p)
  {
    var b, t := Segments(root), Segments(p);
    SegmentsRooted(root);
    SegmentsRooted(p);
    if root != "/" {
      if HasPrefix(p, root + "/") {
        WithinGivesPrefix(root, p);
      }
      if b <= t && b != t {
        PrefixGivesWithin(b, t[|b|..]);
        assert t == b + t[|b|..];
      }
    }
  }

  // ------------------------------------------------------------------------
  // Relative paths
  // ------------------------------------------------------------------------

  function CommonLength(a: seq<string>, b: seq<string>): (n: nat)
    ensures n <= |a| && n <= |b| && a[..n] == b[..n]
    ensures n < |a| && n < |b| ==> a[n] != b[n]
  {
    if a == [] || b == [] || a[0] != b[0] then 0
    else
      var n := CommonLength(a[1..], b[1..]);
      assert a[..n + 1] == [a[0]] + a[1..][..n] && b[..n + 1] == [b[0]] + b[1..][..n];
      n + 1
  }

  function Ups(n: nat): (r: seq<string>)
    ensures |r| == n && forall i :: 0 <= i < n ==> r[i] == ".."
  {
    seq(n, _ => "..")
  }

  function RelSegments(base: seq<string>, target: seq<string>): seq<string> {
    var n := CommonLength(base, target);
    Ups(|base| - n) + target[n..]
  }

  /** filepath.Rel on two clean rooted paths, where it cannot fail. */
  function Rel(base: Path, target: Path): string
    requires Clean(base) && Clean(target)
  {
    if base == target then "." else Join(RelSegments(Segments(base), Segments(target)), '/')
  }

  /** A relative path that leaves the directory it starts in. */
  predicate Escapes(rel: string) { rel == ".." || HasPrefix(rel, "../") }

  lemma RelSegmentsShape(b: seq<string>, t: seq<string>)
    requires Names(b) && Names(t) && b != t
    ensures var r := RelSegments(b, t);
            r != [] && (r[0] == ".." <==> !(b <= t)) && forall i :: 0 <= i < |r| ==> '/' !in r[i]
  {
    var r, n := RelSegments(b, t), CommonLength(b, t);
    if n < |b| {
      assert r[0] == "..";
      assert n < |t| ==> b[n] != t[n];
    } else {
      assert b == b[..n] == t[..n];
      assert t == t[..n] + t[n..];
    }
  }

  lemma RelPieces(base: Path, target: Path)
    requires Clean(base) && Clean(target) && base != target
    ensures var r := RelSegments(Segments(base), Segments(target));
            r != [] && Split(Rel(base, target), '/') == r && (r[0] == ".." <==> !(Segments(base) <= Segments(target)))
  {
    SegmentsRooted(base);
    SegmentsRooted(target);
    RelSegmentsShape(Segments(base), Segments(target));
    SplitJoin(RelSegments(Segments(base), Segments(target)), '/');
  }

  /** The relative path leaves the root exactly when the file does not lie in it. */
  lemma EscapesExactly(root: Path, p: Path)
    requires Clean(root) && Clean(p)
    ensures Escapes(Rel(root, p)) <==> !Within(root, p)
  {
    WithinIsPrefix(root, p);
    if root != p {
      RelPieces(root, p);
      FirstPiece(Rel(root, p));
    }
  }

  lemma FirstPiece(rel: string)
    ensures Escapes(rel) <==> Split(rel, '/')[0] == ".."
  {
    JoinSplit(rel, '/');
    if HasPrefix(rel, "../") {
      assert rel == ".." + ['/'] + rel[3..];
      SplitFirst("..", rel[3..], '/');
    }
    if rel == ".." {
      SplitPiece(rel, '/');
    }
  }

  lemma {:induction false} CleanAppend(a: seq<string>, b: seq<string>, done: seq<string>)
    ensures CleanSegments(a + b, done) == CleanSegments(b, CleanSegments(a, done))
    decreases |a|
  {
    if a == [] {
      assert a + b == b;
    } else {
      var s := a[0];
      assert (a + b)[1..] == a[1..] + b;
      CleanAppend(a[1..], b,
        if s == "" || s == "." then done
        else if s == ".." then (if done == [] then done else done[..|done| - 1])
        else done + [s]);
    }
  }

  lemma {:induction false} CleanNames(names: seq<string>, done: seq<string>)
    requires Names(names)
    ensures CleanSegments(names, done) == done + names
    decreases |names|
  {
    if names != [] {
      CleanNames(names[1..], done + [names[0]]);
      assert done + [names[0]] + names[1..] == done + names;
    }
  }

  lemma {:induction false} CleanUps(n: nat, done: seq<string>)
    requires n <= |done|
    ensures CleanSegments(Ups(n), done) == done[..|done| - n]
    decreases n
  {
    if n > 0 {
      assert Ups(n)[1..] == Ups(n - 1);
      CleanUps(n - 1, done[..|done| - 1]);
    }
  }

  /** Empty components and . are dropped, .. removes the name before it, and nothing at the root. */
  lemma DotsCancelled(a: seq<string>, name: string, b: seq<string>, done: seq<string>)
    requires IsName(name)
    ensures CleanSegments(a + ["."] + b, done) == CleanSegments(a + [""] + b, done) == CleanSegments(a + b, done)
    ensures CleanSegments(a + [name, ".."] + b, done) == CleanSegments(a + b, done)
    ensures CleanSegments([".."] + b, []) == CleanSegments(b, [])
  {
    var d := CleanSegments(a, done);
    CleanAppend(a, b, done);
    AppendTwice(a, ["."], b, done);
    AppendTwice(a, [""], b, done);
    AppendTwice(a, [name, ".."], b, done);
    assert [name, ".."][1..] == [".."] && (d + [name])[..|d|] == d;
    CleanAppend([".."], b, []);
  }

  lemma AppendTwice(a: seq<string>, x: seq<string>, b: seq<string>, done: seq<string>)
    ensures CleanSegments(a + x + b, done) == CleanSegments(b, CleanSegments(x, CleanSegments(a, done)))
  {
    CleanAppend(a + x, b, done);
    CleanAppend(a, x, done);
  }

  lemma CleanRel(base: seq<string>, target: seq<string>)
    requires Names(base) && Names(target)
    ensures CleanSegments(RelSegments(base, target), base) == target
  {
    var n := CommonLength(base, target);
    CleanAppend(Ups(|base| - n), target[n..], base);
    CleanUps(|base| - n, base);
    CleanNames(target[n..], base[..n]);
    assert base[..n] + target[n..] == target;
  }

  lemma RootSplit(rel: string)
    ensures Split("/" + "/" + rel, '/') == [""] + ([""] + Split(rel, '/'))
  {
    var rest := "" + ['/'] + rel;
    SplitFirst("", rel, '/');
    SplitFirst("", rest, '/');
    assert "/" + "/" + rel == "" + ['/'] + rest;
  }

  lemma RootedSplit(b: seq<string>, rel: string)
    requires Names(b) && b != []
    ensures Split(Rooted(b) + "/" + rel, '/') == [""] + (b + Split(rel, '/'))
  {
    var rest := Join(b, '/') + ['/'] + rel;
    SplitAppend(b, rel, '/');
    SplitFirst("", rest, '/');
    assert Rooted(b) + "/" + rel == "" + ['/'] + rest;
  }

  lemma BlankFirst(segments: seq<string>, done: seq<string>)
    ensures CleanSegments([""] + segments, done) == CleanSegments(segments, done)
  {
    assert ([""] + segments)[1..] == segments;
  }

  lemma CleanFrom(b: seq<string>, r: seq<string>)
    requires Names(b)
    ensures CleanSegments(b + r, []) == CleanSegments(r, b)
  {
    CleanAppend(b, r, []);
    CleanNames(b, []);
    assert [] + b == b;
  }

  /** The components of a directory followed by a relative path. */
  lemma JoinedPieces(base: Path, rel: string)
    requires Clean(base)
    ensures CleanSegments(Split(base + "/" + rel, '/'), []) == CleanSegments(Split(rel, '/'), Segments(base))
  {
    var b, r := Segments(base), Split(rel, '/');
    if base == "/" {
      RootSplit(rel);
      BlankFirst([""] + r, []);
      BlankFirst(r, []);
    } else {
      SegmentsRooted(base);
      RootedSplit(b, rel);
      BlankFirst(b + r, []);
      CleanFrom(b, r);
    }
  }

  /** Joining a directory and the relative path of a file gives the file: two files never have one
      relative path. */
  lemma RelRoundTrip(cwd: Path, base: Path, target: Path)
    requires Clean(base) && Clean(target)
    ensures Abs(cwd, base + "/" + Rel(base, target)) == target
  {
    var rel := Rel(base, target);
    JoinedPieces(base, rel);
    SegmentsRooted(target);
    if base == target {
      SplitPiece(".", '/');
    } else {
      RelPieces(base, target);
      CleanRel(Segments(base), Segments(target));
    }
    assert HasPrefix(base + "/" + rel, "/");
  }

  /** A relative path lies below the working directory, and a clean rooted path is itself. */
  lemma AbsOfNames(cwd: Path, names: seq<string>)
    requires Clean(cwd) && Names(names) && names != []
    ensures Abs(cwd, Join(names, '/')) == Rooted(Segments(cwd) + names)
    ensures Abs(cwd, Rooted(names)) == Rooted(names)
  {
    var rel := Join(names, '/');
    JoinedNotEmpty(names);
    NameFirst(names);
    SplitJoin(names, '/');
    JoinedPieces(cwd, rel);
    CleanNames(names, Segments(cwd));
    SplitFirst("", rel, '/');
    assert Rooted(names) == "" + ['/'] + rel;
    BlankFirst(names, []);
    CleanNames(names, []);
    assert [] + names == names;
  }

  lemma NameFirst(names: seq<string>)
    requires Names(names) && names != []
    ensures Join(names, '/') != "" && Join(names, '/')[0] == names[0][0] != '/' && !HasPrefix(Join(names, '/'), "/")
  {
    assert Join(names, '/')[0] == names[0][0];
  }

  lemma RelInjective(base: Path, p: Path, q: Path)
    requires Clean(base) && Clean(p) && Clean(q) && Rel(base, p) == Rel(base, q)
    ensures p == q
  {
    RelRoundTrip("/", base, p);
    RelRoundTrip("/", base, q);
  }
}
