/** The tools the research agent calls: a code search that goes through the
    indexer, and a file reader confined to the indexer's code directory.
    `os.path.realpath` is a parameter: whatever it resolves symbolic links
    to, a file is read only when its resolved path lies inside the resolved
    code directory. */
module Tools {
  import opened Common
  import opened PosixPath
  import Indexer

  const TraversalMessage := "Invalid path: Path traversal attempt detected."

  /** The resolver of a file system without symbolic links, on paths that
      are already normalized: an absolute path is written canonically, which
      folds the two leading separators `normpath` keeps into one, as
      `realpath` does. (A relative path is not resolved against a working
      directory; with an absolute code directory the resolver never sees one.) */
  const NoLinks: string -> string := p => if IsAbs(p) then Absolute(Comps(p)) else p

  /** Resolving without links keeps an absolute path's components and leaves
      a canonical absolute path as it is. */
  lemma NoLinksCanonical(p: string)
    requires IsAbs(p)
    ensures IsAbs(NoLinks(p)) && Tidy(NoLinks(p)) && Comps(NoLinks(p)) == Comps(p)
    ensures Tidy(p) ==> NoLinks(p) == p
  {
    var j := StrJoin("/", Comps(p));
    RenderedComps(Comps(p));
    SlashedComps(j);
    assert Comps("/" + j) == Comps(p);
  }

  /** The path `read_file` checks: the request joined on to the code
      directory and normalized. */
  function Candidate(codeDir: string, path: string): string {
    NormPath(Join(codeDir, path))
  }

  /** `target` lies in or below the directory `base`, which is written
      canonically: `base`'s components begin `target`'s. */
  predicate Contained(base: string, target: string) {
    Tidy(base) && IsPrefix(Comps(base), Comps(target))
  }

  /** Opening `target` for reading as text: it must be a regular file, and
      what it holds must be valid UTF-8. A missing file is reported with the
      path the caller asked for. */
  function ReadAt(fs: FileSystem, target: string, path: string): (r: Result<string>)
    ensures r.Success? <==> IsFile(fs, target) && fs[target].text.Some?
    ensures r.Success? ==> r.value == fs[target].text.value
    ensures !IsFile(fs, target) ==> r == Failure(FileNotFoundError(path))
  {
    if !IsFile(fs, target) then Failure(FileNotFoundError(path))
    else match fs[target].text
      case None => Failure(UnicodeDecodeError)
      case Some(t) => Success(t)
  }

  /** What reading `path` below `codeDir` gives: the resolved request and the
      resolved code directory must be of one kind (both absolute or both
      relative), the request must resolve inside the directory, and then the
      resolved file is read. */
  function ReadOutcome(fs: FileSystem, realpath: string -> string, codeDir: string, path: string): Result<string> {
    var base := realpath(codeDir);
    var target := realpath(Candidate(codeDir, path));
    if IsAbs(target) != IsAbs(base) then Failure(ValueError(MixedPathsMessage))
    else if !Contained(base, target) then Failure(ValueError(TraversalMessage))
    else ReadAt(fs, target, path)
  }

  /** Reading never escapes: for every resolver, a read that succeeds read the
      regular file at the resolved request, and that path lies inside the
      resolved code directory. */
  lemma ReadConfined(fs: FileSystem, realpath: string -> string, codeDir: string, path: string)
    ensures var r := ReadOutcome(fs, realpath, codeDir, path);
      var base, target := realpath(codeDir), realpath(Candidate(codeDir, path));
      r.Success? <==>
        && IsAbs(base) == IsAbs(target) && Contained(base, target)
        && IsFile(fs, target) && fs[target].text.Some?
  {
  }

  /** The checks come in order: a request that resolves outside the code
      directory is refused before the file system is consulted, whatever it
      holds. */
  lemma RejectionIgnoresFiles(fs: FileSystem, fs': FileSystem, realpath: string -> string, codeDir: string, path: string)
    requires !Contained(realpath(codeDir), realpath(Candidate(codeDir, path)))
    ensures ReadOutcome(fs, realpath, codeDir, path) == ReadOutcome(fs', realpath, codeDir, path)
    ensures ReadOutcome(fs, realpath, codeDir, path).Failure?
    ensures ReadOutcome(fs, realpath, codeDir, path).error.ValueError?
  {
  }

  /** Without symbolic links, a relative request below the code directory
      `Absolute(root)` is read exactly when the components it normalizes to
      begin with `root`; it then reads the file with those components. */
  lemma RelativeRequest(fs: FileSystem, root: seq<Name>, q: string)
    requires !IsAbs(q)
    ensures var below := Below(root, q);
      ReadOutcome(fs, NoLinks, Absolute(root), q) ==
        if IsPrefix(root, below) then ReadAt(fs, Absolute(below), q)
        else Failure(ValueError(TraversalMessage))
  {
    var below := Below(root, q);
    var target := Absolute(below);
    NormalizedBelowRoot(root, q);
    AbsoluteComps(root);
    NoLinksCanonical(Absolute(root));
    RenderedComps(below);
    SlashedComps(StrJoin("/", below));
    assert Candidate(Absolute(root), q) == target;
    assert Comps(target) == below;
    assert NoLinks(target) == target;
  }

  /** A relative request whose normalization starts with no ".." stays
      inside the code directory: it reads the file it names there. */
  lemma DescendingRequest(fs: FileSystem, root: seq<Name>, q: string)
    requires !IsAbs(q)
    requires Ups(Walk(false, [], Split(q))) == 0
    ensures ReadOutcome(fs, NoLinks, Absolute(root), q)
         == ReadAt(fs, Absolute(root + Walk(false, [], Split(q))), q)
  {
    RelativeRequest(fs, root, q);
    var w := Walk(false, [], Split(q));
    assert Climb(root, 0) == root;
    assert w[0..] == w;
  }

  /** A request that only climbs (`..`, `../..`, ...) above a non-empty code
      directory is refused. */
  lemma ClimbingRequest(fs: FileSystem, root: seq<Name>, q: string)
    requires !IsAbs(q) && root != []
    requires var w := Walk(false, [], Split(q)); Ups(w) == |w| > 0
    ensures ReadOutcome(fs, NoLinks, Absolute(root), q) == Failure(ValueError(TraversalMessage))
  {
    RelativeRequest(fs, root, q);
    var w := Walk(false, [], Split(q));
    assert Below(root, q) == Climb(root, |w|);
  }

  /** A request that climbs out of the code directory and back into a
      sibling whose name differs from the directory's is refused, even
      when the sibling's name starts with the directory's own. */
  lemma SiblingRequest(fs: FileSystem, parent: seq<Name>, dir: Name, sibling: Name, rest: seq<Name>)
    requires sibling != dir
    ensures ReadOutcome(fs, NoLinks, Absolute(parent + [dir]), StrJoin("/", [".."] + [sibling] + rest))
         == Failure(ValueError(TraversalMessage))
  {
    var root := parent + [dir];
    var t := [sibling] + rest;
    var q := StrJoin("/", [".."] + t);
    assert [".."] + [sibling] + rest == [".."] + t;
    BelowAfterOneUp(parent, dir, t);
    RelativeRequest(fs, root, q);
    assert (parent + t)[|parent|] == sibling;
    assert !IsPrefix(root, parent + t) by {
      assert root[|parent|] == dir;
    }
  }

  /** One ".." from `parent/dir` and then names `t` leads to `parent/t`. */
  lemma BelowAfterOneUp(parent: seq<Name>, dir: Name, t: seq<Name>)
    ensures !IsAbs(StrJoin("/", [".."] + t))
    ensures Below(parent + [dir], StrJoin("/", [".."] + t)) == parent + t
  {
    assert [".."] + t == Repeat("..", 1) + t;
    WalkUpsThenNames(1, t);
    UpsOfDotsAndNames(1, t);
    assert Climb(parent + [dir], 1) == parent;
    assert ([".."] + t)[1..] == t;
  }

  /** `k` ".." steps and then names: a relative path that normalizes to itself. */
  lemma WalkUpsThenNames(k: nat, t: seq<Name>)
    requires k + |t| > 0
    ensures var cs := Repeat("..", k) + t;
      && Walk(false, [], Split(StrJoin("/", cs))) == cs
      && !IsAbs(StrJoin("/", cs))
  {
    var cs := Repeat("..", k) + t;
    forall i | 0 <= i < |cs|
      ensures '/' !in cs[i]
    {
      if i >= k {
        assert cs[i] == t[i - k];
      }
    }
    SplitOfJoin(cs);
    WalkAppend(false, [], Repeat("..", k), t);
    WalkUps(k);
    WalkNames(false, Repeat("..", k), t);
    assert StrJoin("/", cs)[0] == cs[0][0];
  }

  /** A run of ".." steps in a relative path is kept as it is. */
  lemma {:induction false} WalkUps(k: nat)
    ensures Walk(false, [], Repeat("..", k)) == Repeat("..", k)
  {
    if k > 0 {
      WalkUps(k - 1);
      WalkAppend(false, [], Repeat("..", k - 1), [".."]);
      assert Repeat("..", k - 1) + [".."] == Repeat("..", k);
    }
  }

  /** Without symbolic links, an absolute request ignores the code directory:
      it is read exactly when its normalization lies inside it, and then the
      file at the canonical path of its components is read, even when the
      request starts with two separators. */
  lemma AbsoluteRequest(fs: FileSystem, root: seq<Name>, q: string)
    requires IsAbs(q)
    ensures var cs := Comps(NormPath(q));
      ReadOutcome(fs, NoLinks, Absolute(root), q) ==
        if IsPrefix(root, cs) then ReadAt(fs, Absolute(cs), q)
        else Failure(ValueError(TraversalMessage))
  {
    AbsoluteComps(root);
    NoLinksCanonical(Absolute(root));
    NormPathComps(q);
    NoLinksCanonical(NormPath(q));
  }

  /** Without symbolic links, a request with a separator more in front
      (such as "//base/f" for "/base/f") reads the same file: it succeeds
      exactly when the other does, with the same text. */
  lemma ExtraSlashRequest(fs: FileSystem, root: seq<Name>, q: string)
    requires IsAbs(q)
    ensures var a, b := ReadOutcome(fs, NoLinks, Absolute(root), "/" + q), ReadOutcome(fs, NoLinks, Absolute(root), q);
      a.Success? == b.Success? && (a.Success? ==> a.value == b.value)
  {
    AbsoluteRequest(fs, root, q);
    AbsoluteRequest(fs, root, "/" + q);
    NormPathComps(q);
    NormPathComps("/" + q);
    SlashWalk(q);
  }

  /** Without symbolic links, the absolute path of a file inside the code
      directory reads it, written with one leading separator or with two. */
  lemma AbsoluteReadBack(fs: FileSystem, root: seq<Name>, names: seq<Name>, text: string)
    requires Absolute(root + names) in fs && fs[Absolute(root + names)] == File(Some(text))
    ensures ReadOutcome(fs, NoLinks, Absolute(root), Absolute(root + names)) == Success(text)
    ensures ReadOutcome(fs, NoLinks, Absolute(root), "/" + Absolute(root + names)) == Success(text)
  {
    var q := Absolute(root + names);
    AbsoluteComps(root + names);
    NormPathComps(q);
    AbsoluteRequest(fs, root, q);
    assert IsPrefix(root, root + names);
    ExtraSlashRequest(fs, root, q);
  }

  /** A leading separator more leaves the normalizing walk of an absolute path unchanged. */
  lemma SlashWalk(q: string)
    ensures Walk(true, [], Split("/" + q)) == Walk(true, [], Split(q))
  {
  }

  /** Round trip: without symbolic links, asking for the relative path of a
      file below the code directory gives back its contents. */
  lemma ReadBack(fs: FileSystem, root: seq<Name>, names: seq<Name>, text: string)
    requires names != []
    requires Absolute(root + names) in fs && fs[Absolute(root + names)] == File(Some(text))
    ensures ReadOutcome(fs, NoLinks, Absolute(root), StrJoin("/", names)) == Success(text)
  {
    var q := StrJoin("/", names);
    WalkRelative(names);
    UpsOfDotsAndNames(0, names);
    assert Repeat("..", 0) + names == names;
    DescendingRequest(fs, root, q);
  }

  /** A relative path written from ".." steps and names normalizes to those
      steps and names. */
  lemma WalkRelative(cs: seq<Name>)
    requires cs != []
    ensures Walk(false, [], Split(StrJoin("/", cs))) == cs
    ensures !IsAbs(StrJoin("/", cs))
  {
    RenderedComps(cs);
    SplitOfJoin(cs);
    WalkNames(false, [], cs);
  }

  /** A request that climbs at least as many levels as the code directory
      has, and then names a path not inside it, is refused. */
  lemma ClimbOutRefused(fs: FileSystem, root: seq<Name>, k: nat, t: seq<Name>)
    requires k >= |root| && k > 0 && !IsPrefix(root, t)
    ensures ReadOutcome(fs, NoLinks, Absolute(root), StrJoin("/", Repeat("..", k) + t))
         == Failure(ValueError(TraversalMessage))
  {
    var q := StrJoin("/", Repeat("..", k) + t);
    WalkUpsThenNames(k, t);
    UpsOfDotsAndNames(k, t);
    assert (Repeat("..", k) + t)[k..] == t;
    assert Below(root, q) == t;
    RelativeRequest(fs, root, q);
  }

  /** Without symbolic links, "../../etc/passwd" below "/base" is refused. */
  lemma PasswdRefused(fs: FileSystem)
    ensures ReadOutcome(fs, NoLinks, "/base", "../../etc/passwd") == Failure(ValueError(TraversalMessage))
  {
    var t: seq<Name> := ["etc", "passwd"];
    PasswdSpelling();
    ClimbOutRefused(fs, ["base"], 2, t);
  }

  lemma PasswdSpelling()
    ensures StrJoin("/", Repeat("..", 2) + ["etc", "passwd"]) == "../../etc/passwd"
    ensures Absolute(["base"]) == "/base"
  {
    var cs := Repeat("..", 2) + ["etc", "passwd"];
    assert cs == ["..", "..", "etc", "passwd"];
    assert cs[1..] == ["..", "etc", "passwd"] && cs[2..] == ["etc", "passwd"] && cs[3..] == ["passwd"];
    assert StrJoin("/", cs[3..]) == "passwd";
    assert StrJoin("/", cs[2..]) == "etc/passwd";
    assert StrJoin("/", cs[1..]) == "../etc/passwd";
  }

  /** A file inside the code directory that resolves outside it is refused,
      although its name lies inside: the check is on resolved paths. */
  lemma ResolvedOutsideRefused(fs: FileSystem, realpath: string -> string, root: seq<Name>, names: seq<Name>, out: seq<Name>)
    requires names != [] && !IsPrefix(root, out)
    requires realpath(Absolute(root)) == Absolute(root)
    requires realpath(Absolute(root + names)) == Absolute(out)
    ensures ReadOutcome(fs, realpath, Absolute(root), StrJoin("/", names)) == Failure(ValueError(TraversalMessage))
  {
    CandidateOfNames(root, names);
    AbsoluteComps(root);
    AbsoluteComps(out);
  }

  /** A link "/base/link" to "/etc/passwd" cannot be read through "link". */
  lemma LinkOutRefused(fs: FileSystem)
    ensures var resolve := (p: string) => if p == "/base/link" then "/etc/passwd" else p;
      ReadOutcome(fs, resolve, "/base", "link") == Failure(ValueError(TraversalMessage))
  {
    var resolve := (p: string) => if p == "/base/link" then "/etc/passwd" else p;
    LinkSpelling();
    ResolvedOutsideRefused(fs, resolve, ["base"], ["link"], ["etc", "passwd"]);
  }

  lemma LinkSpelling()
    ensures Absolute(["base"]) == "/base" && StrJoin("/", ["link"]) == "link"
    ensures Absolute(["base"] + ["link"]) == "/base/link"
    ensures Absolute(["etc", "passwd"]) == "/etc/passwd"
  {
  }

  /** Names joined on to a canonical root normalize to the canonical path of
      the root's components followed by those names. */
  lemma CandidateOfNames(root: seq<Name>, names: seq<Name>)
    requires names != []
    ensures Candidate(Absolute(root), StrJoin("/", names)) == Absolute(root + names)
  {
    var q := StrJoin("/", names);
    WalkRelative(names);
    UpsOfDotsAndNames(0, names);
    assert Repeat("..", 0) + names == names;
    NormalizedBelowRoot(root, q);
    assert Below(root, q) == root + names by {
      assert Climb(root, 0) == root;
      assert names[0..] == names;
    }
  }

  class CodeResearchTools {
    const indexer: Indexer.CodeIndexer

    constructor (indexer: Indexer.CodeIndexer)
      ensures this.indexer == indexer
    {
      this.indexer := indexer;
    }

    /** `search_code`: the indexer's search with its default of four results. */
    method SearchCode(query: string, fs: FileSystem, load: string -> Indexer.Loaded,
                      similarity: (Indexer.Store, string, int) -> Result<seq<Indexer.Document>>)
      returns (r: Result<string>)
      modifies indexer
      ensures old(indexer.store).Some? ==>
        indexer.store == old(indexer.store) && r == Indexer.Answer(similarity(indexer.store.value, query, 4))
      ensures old(indexer.store).None? && !IsDir(fs, indexer.persistDir) ==>
        indexer.store == None
        && r == Failure(IndexNotReadyError(Indexer.LoadFailureMessage(indexer.persistDir, Indexer.NotFoundMessage(indexer.persistDir))))
      ensures old(indexer.store).None? && IsDir(fs, indexer.persistDir) && load(indexer.persistDir).LoadError? ==>
        indexer.store == None
        && r == Failure(IndexNotReadyError(Indexer.LoadFailureMessage(indexer.persistDir, load(indexer.persistDir).message)))
      ensures old(indexer.store).None? && IsDir(fs, indexer.persistDir) && load(indexer.persistDir).Loaded? ==>
        indexer.store == Some(load(indexer.persistDir).store)
        && r == Indexer.Answer(similarity(load(indexer.persistDir).store, query, 4))
    {
      r := indexer.Search(query, fs, load, similarity);
    }

    /** `read_file`: normalize the joined request, resolve it and the code
        directory, refuse a request whose common path with the directory is
        not the directory, then read the resolved file. */
    method ReadFile(fs: FileSystem, realpath: string -> string, path: string) returns (r: Result<string>)
      ensures r == ReadOutcome(fs, realpath, indexer.codeDir, path)
    {
      var fullPath := NormPath(Join(indexer.codeDir, path));
      var baseDir := realpath(indexer.codeDir);
      var realFullPath := realpath(fullPath);
      ContainmentIff(realFullPath, baseDir);
      match CommonPath(realFullPath, baseDir)
      case Failure(e) =>
        return Failure(e);
      case Success(common) =>
        if common != baseDir {
          return Failure(ValueError(TraversalMessage));
        }
      if !IsFile(fs, realFullPath) {
        return Failure(FileNotFoundError(path));
      }
      match fs[realFullPath].text
      case None =>
        r := Failure(UnicodeDecodeError);
      case Some(t) =>
        r := Success(t);
    }
  }
}
