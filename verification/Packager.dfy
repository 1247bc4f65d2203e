/**
 The packager's load closure: a depth-first search over the load statements of script
 files, with one cache shared by the whole search.
 */
module Packager {
  import opened Wrappers
  import opened Paths
  import opened Text
  import S = Starlark

  /** What the disk holds at a path: nothing readable, bytes, or bytes that also parse as a
      script with the given load statements. */
  datatype File = Unreadable | Plain(content: string) | Script(content: string, loads: seq<string>)

  /** The root (a clean path), the working directory, and the readable files. */
  datatype World = World(root: Path, cwd: Path, files: map<Path, File>)

  datatype Error = OutOfRoot(path: Path) | NotAScript(path: Path) | CallbackFailed(path: Path)

  const PLUGIN_PREFIX := "@"

  /** What a load string names: a plug-in module, nothing inside the root, or a path. */
  datatype Target = Plugin | Outside(path: Path) | At(path: Path)

  function Resolve(w: World, load: string): Target {
    if HasPrefix(load, PLUGIN_PREFIX) then Plugin
    else
      var path := Abs(w.cwd, if HasPrefix(load, "//") then w.root + "/" + load else load);
      if HasPrefix(path, w.root) then At(path) else Outside(path)
  }

  predicate IsStar(path: Path) { HasSuffix(path, ".star") }

  function FileAt(w: World, path: Path): File {
    if path in w.files then w.files[path] else Unreadable
  }

  /** What reading the file gives. */
  function ContentAt(w: World, path: Path): (r: string)
    ensures path in w.files && !w.files[path].Unreadable? ==> r == w.files[path].content
  {
    match FileAt(w, path)
    case Unreadable => ""
    case Plain(c) => c
    case Script(c, _) => c
  }

  /** The load statements followed from a path: those of a parsed script. */
  function Loads(w: World, path: Path): seq<string> {
    if IsStar(path) && FileAt(w, path).Script? then FileAt(w, path).loads else []
  }

  lemma ResolvedIsClean(w: World, load: string)
    requires Resolve(w, load).At?
    ensures Clean(Resolve(w, load).path)
  {
    AbsIsClean(w.cwd, if HasPrefix(load, "//") then w.root + "/" + load else load);
  }

  // ------------------------------------------------------------------------
  // Containment in the root
  // ------------------------------------------------------------------------

  /** The load is accepted, and names the text of the root followed by something other than a new
      component. */
  predicate Strays(w: World, load: string) {
    match Resolve(w, load)
    case At(p) => w.root != "/" && |p| > |w.root| && p[|w.root|] != '/'
    case _ => false
  }

  /** The test that a path starts with the root lets exactly the straying loads out of the root. */
  lemma StraysExactly(w: World, load: string)
    requires Resolve(w, load).At?
    ensures Within(w.root, Resolve(w, load).path) <==> !Strays(w, load)
  {
    PrefixWithin(w.root, Resolve(w, load).path);
  }

  lemma StrayPieces(name: string)
    requires '/' !in name
    ensures Split("//../" + name, '/') == ["", "", "..", name]
  {
    var up := ".." + ['/'] + name;
    SplitPiece(name, '/');
    SplitFirst("..", name, '/');
    SplitFirst("", up, '/');
    SplitFirst("", "" + ['/'] + up, '/');
    assert "//../" + name == "" + ['/'] + ("" + ['/'] + up);
  }

  lemma StrayCleaned(init: seq<string>, d: string, name: string)
    requires IsName(name)
    ensures CleanSegments(["", "", "..", name], init + [d]) == init + [name]
  {
    CleanNames([name], init);
    CleanUps(1, init + [d]);
    assert (init + [d])[..|init|] == init;
    CleanAppend(["", ""] + Ups(1), [name], init + [d]);
    CleanAppend(["", ""], Ups(1), init + [d]);
    assert ["", ""] + Ups(1) + [name] == ["", "", "..", name];
    assert CleanSegments(["", ""], init + [d]) == init + [d];
  }

  lemma LongerName(init: seq<string>, d: string, suffix: string)
    ensures Rooted(init + [d + suffix]) == Rooted(init + [d]) + suffix
  {
    if init != [] {
      JoinAppend(init, [d], '/');
      JoinAppend(init, [d + suffix], '/');
    }
  }

  lemma LongerIsName(init: seq<string>, d: string, suffix: string)
    requires Names(init + [d]) && suffix != "" && '/' !in suffix
    ensures IsName(d + suffix) && '/' !in d + suffix
  {
    assert (init + [d])[|init|] == d;
    assert (d + suffix)[0] == d[0] && |d + suffix| >= 2;
    assert |d| == 1 ==> d == [d[0]];
  }

  /** Under every root but the file system's own there are loads that stray: those of a sibling whose
      name begins with the root's own. */
  lemma SiblingStrays(w: World, init: seq<string>, d: string, suffix: string)
    requires Names(init + [d]) && w.root == Rooted(init + [d]) && suffix != "" && '/' !in suffix
    ensures Resolve(w, "//../" + d + suffix) == At(w.root + suffix) && Strays(w, "//../" + d + suffix)
    ensures !Within(w.root, w.root + suffix)
  {
    var name, load := d + suffix, "//../" + d + suffix;
    LongerIsName(init, d, suffix);
    assert load == "//../" + name;
    RootedSegments(init + [d]);
    StrayPieces(name);
    JoinedPieces(w.root, load);
    StrayCleaned(init, d, name);
    LongerName(init, d, suffix);
    assert HasPrefix(w.root + "/" + load, "/") && !HasPrefix(load, PLUGIN_PREFIX) && HasPrefix(load, "//");
    assert Abs(w.cwd, w.root + "/" + load) == w.root + suffix;
    StraysExactly(w, load);
  }

  /** From the root /a, for instance, the load //../ab names the file /ab. */
  lemma StrayExample(files: map<Path, File>)
    ensures var w := World("/a", "/", files);
            Resolve(w, "//../ab") == At("/ab") && Strays(w, "//../ab") && !Within("/a", "/ab")
  {
    var w := World("/a", "/", files);
    assert Rooted([] + ["a"]) == "/a" && "//../" + "a" + "b" == "//../ab" && "/a" + "b" == "/ab";
    SiblingStrays(w, [], "a", "b");
  }

  // ------------------------------------------------------------------------
  // Reachability
  // ------------------------------------------------------------------------

  ghost predicate Follows(w: World, p: Path, q: Path) {
    exists i :: 0 <= i < |Loads(w, p)| && Resolve(w, Loads(w, p)[i]) == At(q)
  }

  ghost predicate Chain(w: World, chain: seq<Path>) {
    chain != [] && forall i :: 0 <= i < |chain| - 1 ==> Follows(w, chain[i], chain[i + 1])
  }

  /** q is start, or loaded from it through other scripts. */
  ghost predicate Reaches(w: World, start: Path, q: Path) {
    exists chain :: Chain(w, chain) && chain[0] == start && chain[|chain| - 1] == q
  }

  lemma ReachesSelf(w: World, start: Path)
    ensures Reaches(w, start, start)
  {
    assert Chain(w, [start]);
  }

  lemma ReachesOneMore(w: World, start: Path, p: Path, i: nat)
    requires Reaches(w, start, p) && i < |Loads(w, p)| && Resolve(w, Loads(w, p)[i]).At?
    ensures Reaches(w, start, Resolve(w, Loads(w, p)[i]).path)
  {
    var q := Resolve(w, Loads(w, p)[i]).path;
    var chain :| Chain(w, chain) && chain[0] == start && chain[|chain| - 1] == p;
    assert Follows(w, p, q);
    var longer := chain + [q];
    assert Chain(w, longer) && longer[0] == start && longer[|longer| - 1] == q;
  }

  /** The first n loads are of plug-ins or in s. */
  predicate LoadedBelow(w: World, loads: seq<string>, n: nat, s: set<Path>)
    requires n <= |loads|
  {
    forall k :: 0 <= k < n ==> IsLoaded(w, loads[k], s)
  }

  lemma LoadedMore(w: World, loads: seq<string>, n: nat, s: set<Path>, t: set<Path>)
    requires n < |loads| && LoadedBelow(w, loads, n, s) && s <= t && IsLoaded(w, loads[n], t)
    ensures LoadedBelow(w, loads, n + 1, t)
  {
    forall k | 0 <= k < n + 1 ensures IsLoaded(w, loads[k], t) {
      assert k < n ==> IsLoaded(w, loads[k], s);
    }
  }

  predicate IsLoaded(w: World, load: string, s: set<Path>) {
    match Resolve(w, load) case Plugin => true case Outside(_) => false case At(q) => q in s
  }

  /** Everything p loads is a plug-in or in s. */
  predicate ClosedAt(w: World, s: set<Path>, p: Path) {
    LoadedBelow(w, Loads(w, p), |Loads(w, p)|, s)
  }

  lemma {:induction false} ClosedHoldsChain(w: World, s: set<Path>, chain: seq<Path>, i: nat)
    requires Chain(w, chain) && i < |chain| && chain[0] in s && forall p :: p in s ==> ClosedAt(w, s, p)
    ensures chain[i] in s
  {
    if i > 0 {
      ClosedHoldsChain(w, s, chain, i - 1);
      assert Follows(w, chain[i - 1], chain[i]);
    }
  }

  /** A file that cannot be packed: one that cannot be read, a script that does not parse or that
      loads from outside the root. */
  predicate Broken(w: World, p: Path) {
    || FileAt(w, p).Unreadable?
    || (IsStar(p) && !FileAt(w, p).Script?)
    || exists i :: 0 <= i < |Loads(w, p)| && Resolve(w, Loads(w, p)[i]).Outside?
  }

  /** p can be packed and everything it loads is in s. */
  predicate Finished(w: World, s: set<Path>, p: Path) {
    ClosedAt(w, s, p) && !Broken(w, p)
  }

  lemma FinishedMonotone(w: World, s: set<Path>, t: set<Path>, p: Path)
    requires Finished(w, s, p) && s <= t
    ensures Finished(w, t, p)
  {
  }

  /** Every path that s has and t has not is reached from start. */
  ghost predicate NewReached(w: World, s: set<Path>, t: set<Path>, start: Path) {
    forall p :: p in s - t ==> Reaches(w, start, p)
  }

  /** The paths of s that can be packed and load only from s. */
  ghost function FinishedIn(w: World, s: set<Path>): set<Path> {
    set p | p in s && Finished(w, s, p)
  }

  /** Every path that s has and t has not is finished in s. */
  ghost predicate NewFinished(w: World, s: set<Path>, t: set<Path>) { s - t <= FinishedIn(w, s) }

  lemma FinishedMore(w: World, before: set<Path>, previous: set<Path>, s: set<Path>)
    requires NewFinished(w, previous, before) && NewFinished(w, s, previous) && previous <= s
    ensures NewFinished(w, s, before)
  {
    forall p | p in s - before ensures p in FinishedIn(w, s) {
      if p in previous {
        assert p in FinishedIn(w, previous);
        FinishedMonotone(w, previous, s, p);
      } else {
        assert p in s - previous;
      }
    }
  }

  ghost predicate BrokenReached(w: World, start: Path) {
    exists p :: Reaches(w, start, p) && Broken(w, p)
  }

  /** load strays, or a script reached from it makes a load that does. */
  ghost predicate StrayReached(w: World, load: string) {
    || Strays(w, load)
    || (Resolve(w, load).At? &&
        exists p, i :: Reaches(w, Resolve(w, load).path, p) && 0 <= i < |Loads(w, p)| && Strays(w, Loads(w, p)[i]))
  }

  /** A reached file is where the search began, or is named by a load of a reached script. */
  lemma ReachedByLoad(w: World, start: Path, q: Path) returns (p: Path, i: nat)
    requires Reaches(w, start, q) && q != start
    ensures Reaches(w, start, p) && i < |Loads(w, p)| && Resolve(w, Loads(w, p)[i]) == At(q)
  {
    var chain :| Chain(w, chain) && chain[0] == start && chain[|chain| - 1] == q;
    var n := |chain| - 1;
    p := chain[n - 1];
    assert Chain(w, chain[..n]) && chain[..n][n - 1] == p;
    assert Follows(w, chain[n - 1], chain[n]);
    i :| 0 <= i < |Loads(w, p)| && Resolve(w, Loads(w, p)[i]) == At(q);
  }

  /** Everything reached lies in the root if and only if no load on the way strays. */
  lemma AllWithin(w: World, load: string)
    requires Resolve(w, load).At?
    ensures (forall q :: Reaches(w, Resolve(w, load).path, q) ==> Within(w.root, q)) <==> !StrayReached(w, load)
  {
    var start := Resolve(w, load).path;
    StraysExactly(w, load);
    if StrayReached(w, load) {
      ReachesSelf(w, start);
      if !Strays(w, load) {
        var p, i :| Reaches(w, start, p) && 0 <= i < |Loads(w, p)| && Strays(w, Loads(w, p)[i]);
        StraysExactly(w, Loads(w, p)[i]);
        ReachesOneMore(w, start, p, i);
      }
    } else {
      forall q | Reaches(w, start, q) ensures Within(w.root, q) {
        if q != start {
          var p, i := ReachedByLoad(w, start, q);
          StraysExactly(w, Loads(w, p)[i]);
        }
      }
    }
  }

  predicate AllClean(log: seq<Path>) {
    forall i :: 0 <= i < |log| ==> Clean(log[i])
  }

  /** Every file was read. */
  predicate AllReadable(w: World, log: seq<Path>) {
    forall i :: 0 <= i < |log| ==> log[i] in w.files && !w.files[log[i]].Unreadable?
  }

  function Entries(w: World, log: seq<Path>): (r: seq<(string, string)>)
    requires Clean(w.root) && AllClean(log)
    ensures |r| == |log|
  {
    seq(|log|, i requires 0 <= i < |log| => (Rel(w.root, log[i]), ContentAt(w, log[i])))
  }

  /** The archive after the logged files have been stored one by one, by name relative to the root. */
  function Archive(w: World, log: seq<Path>): map<string, string>
    requires Clean(w.root) && AllClean(log)
  {
    S.FromKeywords(Entries(w, log))
  }

  lemma ArchiveMore(w: World, log: seq<Path>, path: Path)
    requires Clean(w.root) && AllClean(log) && Clean(path)
    ensures AllClean(log + [path])
    ensures Archive(w, log + [path]) == Archive(w, log)[Rel(w.root, path) := ContentAt(w, path)]
  {
    assert Entries(w, log + [path])[..|log|] == Entries(w, log);
  }

  /** Names are unique. */
  lemma EntryNames(w: World, log: seq<Path>, i: nat, j: nat)
    requires Clean(w.root) && AllClean(log) && NoDuplicates(log) && i < j < |log|
    ensures Entries(w, log)[i].0 != Entries(w, log)[j].0
  {
    if Rel(w.root, log[i]) == Rel(w.root, log[j]) {
      RelInjective(w.root, log[i], log[j]);
    }
  }

  lemma ArchiveEntry(w: World, log: seq<Path>, i: nat)
    requires Clean(w.root) && AllClean(log) && NoDuplicates(log) && i < |log|
    ensures Rel(w.root, log[i]) in Archive(w, log)
    ensures Archive(w, log)[Rel(w.root, log[i])] == ContentAt(w, log[i])
  {
    var entries := Entries(w, log);
    forall j | i < j < |log| ensures entries[j].0 != entries[i].0 { EntryNames(w, log, i, j); }
    S.KeywordsLookup(entries, entries[i].0);
    assert entries[i] == (Rel(w.root, log[i]), ContentAt(w, log[i]));
  }

  lemma ArchiveName(w: World, log: seq<Path>, name: string) returns (i: nat)
    requires Clean(w.root) && AllClean(log) && name in Archive(w, log)
    ensures i < |log| && Rel(w.root, log[i]) == name
  {
    i := S.KeywordsSource(Entries(w, log), name);
  }

  /** So every logged file is in the archive with its own content, and nothing else is. */
  lemma ArchiveHolds(w: World, log: seq<Path>)
    requires Clean(w.root) && AllClean(log) && NoDuplicates(log) && AllReadable(w, log)
    ensures forall i :: 0 <= i < |log| ==>
              Rel(w.root, log[i]) in Archive(w, log) && Archive(w, log)[Rel(w.root, log[i])] == w.files[log[i]].content
    ensures forall name :: name in Archive(w, log) ==> exists i :: 0 <= i < |log| && Rel(w.root, log[i]) == name
  {
    forall i: nat | i < |log| { ArchiveEntry(w, log, i); }
    forall name | name in Archive(w, log) ensures exists i :: 0 <= i < |log| && Rel(w.root, log[i]) == name {
      var i := ArchiveName(w, log, name);
    }
  }

  /** Each logged file is stored with what the disk holds at it, under its name relative to the root,
      and nothing else is stored. */
  ghost predicate HoldsDisk(root: Path, disk: map<Path, File>, log: seq<Path>, files: map<string, string>)
    requires Clean(root) && AllClean(log)
  {
    && (forall i :: 0 <= i < |log| ==>
          && log[i] in disk && !disk[log[i]].Unreadable?
          && Rel(root, log[i]) in files && files[Rel(root, log[i])] == disk[log[i]].content)
    && (forall name :: name in files ==> exists i :: 0 <= i < |log| && Rel(root, log[i]) == name)
  }

  /** Every packed file lies in the root. */
  ghost predicate AllInside(root: Path, log: seq<Path>) {
    forall i :: 0 <= i < |log| ==> Within(root, log[i])
  }

  /** A name in the archive leads out of the directory it is unpacked into. */
  ghost predicate SomeEscapes(files: map<string, string>) {
    exists name :: name in files && Escapes(name)
  }

  lemma ReachedMore(w: World, before: set<Path>, previous: set<Path>, s: set<Path>, start: Path)
    requires NewReached(w, previous, before, start) && NewReached(w, s, previous, start) && previous <= s
    ensures NewReached(w, s, before, start)
  {
    forall p | p in s - before ensures Reaches(w, start, p) {
      assert p in previous - before || p in s - previous;
    }
  }

  /** A load from outside the root breaks the script that makes it. */
  lemma BrokenLoad(w: World, start: Path, p: Path, i: nat)
    requires Reaches(w, start, p) && i < |Loads(w, p)|
    ensures Resolve(w, Loads(w, p)[i]).Outside? ==> BrokenReached(w, start)
  {
  }

  predicate NoDuplicates(s: seq<Path>) {
    forall i, j :: 0 <= i < j < |s| ==> s[i] != s[j]
  }

  function Elements(s: seq<Path>): set<Path> { set p | p in s }

  /** A search follows the load statements of the .star files that parse. */
  lemma FollowsExactly(w: World, p: Path, q: Path)
    ensures Follows(w, p, q) <==>
              && |p| >= 5 && p[|p| - 5..] == ".star" && p in w.files && w.files[p].Script?
              && exists i :: 0 <= i < |w.files[p].loads| && Resolve(w, w.files[p].loads[i]) == At(q)
  {
    if p in w.files && w.files[p].Script? && IsStar(p) {
      assert Loads(w, p) == w.files[p].loads;
    }
  }

  /** What cannot be packed. */
  lemma BrokenExactly(w: World, p: Path)
    ensures Broken(w, p) <==>
              || p !in w.files || w.files[p].Unreadable?
              || (|p| >= 5 && p[|p| - 5..] == ".star" &&
                  (!w.files[p].Script? ||
                   exists i :: 0 <= i < |w.files[p].loads| && Resolve(w, w.files[p].loads[i]).Outside?))
  {
    if p in w.files && w.files[p].Script? && IsStar(p) {
      assert Loads(w, p) == w.files[p].loads;
    }
  }

  /** What a load names: a plug-in module after @, a path below the root after //, else a rooted path or
      one below the working directory; and it is refused exactly when the root is no prefix of it. */
  lemma ResolveExactly(w: World, load: string, names: seq<string>)
    requires Clean(w.root) && Clean(w.cwd) && Names(names) && names != []
    ensures load != "" && load[0] == '@' ==> Resolve(w, load) == Plugin
    ensures Resolve(w, "//" + Join(names, '/')) == Named(w, Rooted(Segments(w.root) + names))
    ensures Resolve(w, Rooted(names)) == Named(w, Rooted(names))
    ensures names[0][0] != '@' ==> Resolve(w, Join(names, '/')) == Named(w, Rooted(Segments(w.cwd) + names))
  {
    var rel := Join(names, '/');
    NameFirst(names);
    AbsOfNames(w.cwd, names);
    RootRelative(w, names);
    ResolveBelowRoot(w, rel);
    RootedNames(names);
    ResolvePath(w, Rooted(names));
    if names[0][0] != '@' { ResolvePath(w, rel); }
  }

  lemma RootedNames(names: seq<string>)
    requires Names(names) && names != []
    ensures Rooted(names)[0] == '/' && !HasPrefix(Rooted(names), "//")
  {
    NameFirst(names);
    assert Rooted(names)[1..] == Join(names, '/');
  }

  lemma ResolvePath(w: World, load: string)
    requires load != "" && load[0] != '@' && !HasPrefix(load, "//")
    ensures Resolve(w, load) == Named(w, Abs(w.cwd, load))
  {
  }

  lemma ResolveBelowRoot(w: World, rel: string)
    ensures Resolve(w, "//" + rel) == Named(w, Abs(w.cwd, w.root + "/" + ("//" + rel)))
  {
    assert ("//" + rel)[0] == '/' && HasPrefix("//" + rel, "//");
  }

  function Named(w: World, path: Path): Target { if w.root <= path then At(path) else Outside(path) }

  lemma RootRelative(w: World, names: seq<string>)
    requires Clean(w.root) && Names(names) && names != []
    ensures Abs(w.cwd, w.root + "/" + ("//" + Join(names, '/'))) == Rooted(Segments(w.root) + names)
  {
    var rel := Join(names, '/');
    SplitJoin(names, '/');
    SplitFirst("", rel, '/');
    SplitFirst("", "" + ['/'] + rel, '/');
    assert "//" + rel == "" + ['/'] + ("" + ['/'] + rel);
    JoinedPieces(w.root, "//" + rel);
    BlankFirst([""] + names, Segments(w.root));
    BlankFirst(names, Segments(w.root));
    CleanNames(names, Segments(w.root));
    assert HasPrefix(w.root + "/" + ("//" + rel), "/");
  }

  // ------------------------------------------------------------------------
  // The search
  // ------------------------------------------------------------------------

  class Packaging {
    const w: World
    var cache: set<Path>
    var log: seq<Path>                  // the callback's argument, call by successful call
    var files: map<string, string>      // contents, by name relative to the root

    constructor (w: World)
      requires Clean(w.root)
      ensures this.w == w && cache == {} && log == [] && files == map[] && Intact()
    {
      this.w := w;
      cache, log, files := {}, [], map[];
    }

    /** Each path is loaded at most once, is in the cache, and is stored with its content. */
    ghost predicate Valid() reads this {
      && Clean(w.root) && NoDuplicates(log) && Elements(log) <= cache
      && AllClean(log) && AllReadable(w, log) && files == Archive(w, log)
    }

    /** Nothing in the cache failed to load. */
    ghost predicate Intact() reads this { Valid() && Elements(log) == cache }

    /** The packager's callback: reads the file and keeps its content under its relative name. */
    method OnLoad(path: Path) returns (err: Option<Error>)
      requires Valid() && path !in log && Clean(path)
      modifies this`log, this`files
      ensures err.None? <==> path in w.files && !w.files[path].Unreadable?
      ensures if err.None? then log == old(log) + [path] && files == old(files)[Rel(w.root, path) := w.files[path].content]
              else log == old(log) && files == old(files)
    {
      var name := Rel(w.root, path);
      if FileAt(w, path).Unreadable? {
        return Some(CallbackFailed(path));
      }
      log := log + [path];
      files := files[name := ContentAt(w, path)];
      return None;
    }

    /** Caches a new path, then calls the callback on it. */
    method Visit(path: Path) returns (err: Option<Error>)
      requires Intact() && path !in cache && Clean(path)
      modifies this
      ensures Valid() && cache == old(cache) + {path}
      ensures err.None? <==> !FileAt(w, path).Unreadable?
      ensures err.None? ==> Intact()
    {
      assert path in log ==> path in Elements(log);
      ArchiveMore(w, log, path);
      cache := cache + {path};
      err := OnLoad(path);
      if err.None? {
        assert Elements(log) == old(Elements(log)) + {path};
      }
    }

    /** load: start is the path the whole search began at. */
    method Load(load: string, ghost start: Path) returns (err: Option<Error>)
      requires Intact()
      requires Resolve(w, load).At? ==> Reaches(w, start, Resolve(w, load).path)
      modifies this
      decreases w.files.Keys - cache, 0
      ensures Valid() && old(cache) <= cache && NewReached(w, cache, old(cache), start)
      ensures err.None? ==> Intact() && NewFinished(w, cache, old(cache))
      ensures err.None? ==> match Resolve(w, load)
                            case Plugin => cache == old(cache) case Outside(_) => false case At(p) => p in cache
      ensures err.Some? ==> Resolve(w, load).Outside? || (Resolve(w, load).At? && BrokenReached(w, start))
    {
      if HasPrefix(load, PLUGIN_PREFIX) {
        return None;
      }
      var path := Abs(w.cwd, if HasPrefix(load, "//") then w.root + "/" + load else load);
      if !HasPrefix(path, w.root) {
        return Some(OutOfRoot(path));
      }
      if path in cache {
        return None;
      }
      ResolvedIsClean(w, load);
      if !IsStar(path) {
        err := Visit(path);
        assert Loads(w, path) == [];
        return;
      }
      if !FileAt(w, path).Script? {
        return Some(NotAScript(path));
      }
      err := Visit(path);  // cannot fail: a file that parses can be read
      err := LoadAll(path, start);
      if err.None? {
        assert path in FinishedIn(w, cache);
      }
    }

    /** The search that began with the given cache has gone well so far. */
    ghost predicate Searched(before: set<Path>, start: Path) reads this {
      Intact() && before <= cache && NewReached(w, cache, before, start) && NewFinished(w, cache, before)
    }

    /** The loop of load over the load statements of a script just visited. */
    method LoadAll(path: Path, ghost start: Path) returns (err: Option<Error>)
      requires Intact() && IsStar(path) && FileAt(w, path).Script? && Reaches(w, start, path)
      modifies this
      decreases w.files.Keys - cache, 2
      ensures Valid() && old(cache) <= cache && NewReached(w, cache, old(cache), start)
      ensures err.None? ==> Searched(old(cache), start) && Finished(w, cache, path)
      ensures err.Some? ==> BrokenReached(w, start)
    {
      var loads := FileAt(w, path).loads;
      for i := 0 to |loads|
        invariant Searched(old(cache), start) && LoadedBelow(w, loads, i, cache)
      {
        err := LoadNext(path, i, start, old(cache));
        if err.Some? {
          return;
        }
      }
      return None;
    }

    /** One turn of that loop. */
    method LoadNext(path: Path, i: nat, ghost start: Path, ghost before: set<Path>) returns (err: Option<Error>)
      requires Searched(before, start) && Reaches(w, start, path)
      requires i < |Loads(w, path)| && LoadedBelow(w, Loads(w, path), i, cache)
      modifies this
      decreases w.files.Keys - cache, 1
      ensures Valid() && old(cache) <= cache && NewReached(w, cache, before, start)
      ensures err.None? ==> Searched(before, start) && LoadedBelow(w, Loads(w, path), i + 1, cache)
      ensures err.Some? ==> BrokenReached(w, start)
    {
      var load := FileAt(w, path).loads[i];
      if Resolve(w, load).At? { ReachesOneMore(w, start, path, i); }
      err := Load(load, start);
      ReachedMore(w, before, old(cache), cache, start);
      if err.Some? {
        BrokenLoad(w, start, path, i);
        return;
      }
      FinishedMore(w, before, old(cache), cache);
      LoadedMore(w, Loads(w, path), i, old(cache), cache);
    }
  }

  /** Package: succeeds exactly when every file reachable from path through non-plug-in loads can be
      packed, and then has called back once for each of them and for no other.  The archive holds each
      of them under its name relative to the root, and all of them lie in the root, with no name that
      leaves it, if and only if no load on the way strays. */
  method Package(root: string, path: string, cwd: Path, disk: map<Path, File>)
    returns (err: Option<Error>, files: map<string, string>, log: seq<Path>, ghost w: World)
    ensures w == World(Abs(cwd, root), cwd, disk) && Clean(w.root) && AllClean(log)
    ensures err.None? <==> match Resolve(w, path)
                           case Plugin => true
                           case Outside(_) => false
                           case At(start) => !BrokenReached(w, start)
    ensures NoDuplicates(log) && files == Archive(w, log) && HoldsDisk(w.root, disk, log, files)
    ensures err.None? ==> forall p :: p in log <==> Resolve(w, path).At? && Reaches(w, Resolve(w, path).path, p)
    ensures err.None? ==> (AllInside(w.root, log) <==> !StrayReached(w, path))
    ensures err.None? ==> (SomeEscapes(files) <==> StrayReached(w, path))
  {
    var world := World(Abs(cwd, root), cwd, disk);
    w := world;
    AbsIsClean(cwd, root);
    var packaging := new Packaging(world);
    ghost var start := if Resolve(w, path).At? then Resolve(w, path).path else "";
    ReachesSelf(w, start);
    err := packaging.Load(path, start);
    files, log := packaging.files, packaging.log;
    ArchiveHolds(world, log);
    if err.None? {
      PackedIsReached(w, path, start, packaging.cache, log);
      InsideExactly(w, path, start, log);
      NamesEscape(w, log);
    }
  }

  /** After a search that succeeded the cache holds what is reached, and none of it is broken. */
  lemma PackedIsReached(w: World, load: string, start: Path, cache: set<Path>, log: seq<Path>)
    requires NewFinished(w, cache, {}) && NewReached(w, cache, {}, start) && Elements(log) == cache
    requires match Resolve(w, load)
             case Plugin => cache == {} case Outside(_) => false case At(p) => p in cache && p == start
    ensures forall p :: p in log <==> Resolve(w, load).At? && Reaches(w, start, p)
    ensures Resolve(w, load).At? ==> !BrokenReached(w, start)
  {
    assert cache == cache - {};
    forall p ensures p in log <==> p in cache { assert p in log <==> p in Elements(log); }
    if Resolve(w, load).At? {
      forall p | Reaches(w, start, p) ensures p in cache && !Broken(w, p) {
        var chain :| Chain(w, chain) && chain[0] == start && chain[|chain| - 1] == p;
        ClosedHoldsChain(w, cache, chain, |chain| - 1);
      }
    }
  }

  lemma InsideExactly(w: World, load: string, start: Path, log: seq<Path>)
    requires Resolve(w, load).At? ==> Resolve(w, load).path == start
    requires !Resolve(w, load).Outside?
    requires forall p :: p in log <==> Resolve(w, load).At? && Reaches(w, start, p)
    ensures AllInside(w.root, log) <==> !StrayReached(w, load)
  {
    if Resolve(w, load).At? {
      AllWithin(w, load);
      if AllInside(w.root, log) {
        forall q | Reaches(w, start, q) ensures Within(w.root, q) { assert q in log; }
      }
    } else {
      assert forall i :: 0 <= i < |log| ==> log[i] in log;
    }
  }

  lemma NamesEscape(w: World, log: seq<Path>)
    requires Clean(w.root) && AllClean(log) && NoDuplicates(log) && AllReadable(w, log)
    ensures SomeEscapes(Archive(w, log)) <==> !AllInside(w.root, log)
  {
    ArchiveHolds(w, log);
    forall i | 0 <= i < |log| ensures Escapes(Rel(w.root, log[i])) <==> !Within(w.root, log[i]) {
      EscapesExactly(w.root, log[i]);
    }
  }
}
