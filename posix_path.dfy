/** The POSIX path operations the core relies on, written as CPython's
    posixpath module computes them on strings: `str.split('/')`, `join`,
    `normpath`, `commonpath`, `abspath` and `relpath`. The lemmas relate the
    string operations to their component lists, where the reasoning about
    containment happens. */
module PosixPath {
  import opened Common

  /** A directory-entry name: not empty, not "." or "..", and without a separator. */
  predicate IsName(c: string) {
    c != "" && c != "." && c != ".." && '/' !in c
  }

  type Name = c: string | IsName(c) witness "a"

  /** A component that the filters of `normpath` and `commonpath` keep:
      neither empty nor ".", and without a separator ("..", too, is proper). */
  predicate IsProper(c: string) {
    c != "" && c != "." && '/' !in c
  }

  /** `os.path.isabs` */
  predicate IsAbs(p: string) {
    |p| > 0 && p[0] == '/'
  }

  // ---------------------------------------------------------------------------
  // str.split('/') and '/'.join

  /** `s.split('/')`: never empty, and no piece holds a separator. */
  function Split(s: string): (r: seq<string>)
    ensures |r| >= 1
    ensures forall i :: 0 <= i < |r| ==> '/' !in r[i]
    decreases |s|
  {
    if |s| == 0 then [""]
    else if s[0] == '/' then [""] + Split(s[1..])
    else var t := Split(s[1..]); [[s[0]] + t[0]] + t[1..]
  }

  lemma SplitSlash(x: string)
    ensures Split("/" + x) == [""] + Split(x)
  {
    assert ("/" + x)[1..] == x;
  }

  /** Splitting at a separator splits the two sides independently. */
  lemma {:induction false} SplitAppend(x: string, y: string)
    ensures Split(x + "/" + y) == Split(x) + Split(y)
    decreases |x|
  {
    if |x| == 0 {
      assert x + "/" + y == "/" + y;
      SplitSlash(y);
    } else {
      assert (x + "/" + y)[1..] == x[1..] + "/" + y;
      SplitAppend(x[1..], y);
    }
  }

  lemma {:induction false} SplitNoSeparator(s: string)
    requires '/' !in s
    ensures Split(s) == [s]
    decreases |s|
  {
    if |s| > 0 {
      SplitNoSeparator(s[1..]);
      assert [s[0]] + s[1..] == s;
    }
  }

  /** Joining with '/' undoes splitting on '/'. */
  lemma {:induction false} JoinOfSplit(s: string)
    ensures StrJoin("/", Split(s)) == s
    decreases |s|
  {
    if |s| > 0 {
      JoinOfSplit(s[1..]);
      var t := Split(s[1..]);
      if s[0] == '/' {
        assert Split(s)[1..] == t;
        assert s == "/" + s[1..];
      } else {
        assert Split(s)[1..] == t[1..];
        assert s == [s[0]] + s[1..];
      }
    }
  }

  /** Splitting on '/' undoes joining separator-free pieces with '/'. */
  lemma {:induction false} SplitOfJoin(cs: seq<string>)
    requires cs != []
    requires forall i :: 0 <= i < |cs| ==> '/' !in cs[i]
    ensures Split(StrJoin("/", cs)) == cs
  {
    SplitNoSeparator(cs[0]);
    if |cs| == 1 {
      assert StrJoin("/", cs) == cs[0];
    } else {
      SplitOfJoin(cs[1..]);
      assert StrJoin("/", cs) == cs[0] + "/" + StrJoin("/", cs[1..]);
      SplitAppend(cs[0], StrJoin("/", cs[1..]));
    }
  }

  // ---------------------------------------------------------------------------
  // The two component filters

  /** The pieces `commonpath` keeps: `[c for c in s if c and c != '.']`. */
  function DropTrivial(cs: seq<string>): seq<string> {
    if cs == [] then []
    else (if cs[0] == "" || cs[0] == "." then [] else [cs[0]]) + DropTrivial(cs[1..])
  }

  /** The pieces `relpath` keeps: `[x for x in s if x]`. */
  function DropEmpty(cs: seq<string>): seq<string> {
    if cs == [] then []
    else (if cs[0] == "" then [] else [cs[0]]) + DropEmpty(cs[1..])
  }

  /** Both filters leave a list of proper components as it is. */
  lemma {:induction false} FiltersKeepProper(cs: seq<string>)
    requires forall i :: 0 <= i < |cs| ==> IsProper(cs[i])
    ensures DropTrivial(cs) == cs && DropEmpty(cs) == cs
  {
    if cs != [] {
      FiltersKeepProper(cs[1..]);
    }
  }

  /** Dropping "" and "." from separator-free pieces leaves proper components. */
  lemma {:induction false} DropTrivialProper(cs: seq<string>)
    requires forall i :: 0 <= i < |cs| ==> '/' !in cs[i]
    ensures forall i :: 0 <= i < |DropTrivial(cs)| ==> IsProper(DropTrivial(cs)[i])
  {
    if cs != [] {
      DropTrivialProper(cs[1..]);
    }
  }

  /** The components `commonpath` compares. */
  function Comps(p: string): (r: seq<string>)
    ensures forall i :: 0 <= i < |r| ==> IsProper(r[i])
  {
    DropTrivialProper(Split(p));
    DropTrivial(Split(p))
  }

  /** Rendering proper components and reading them back gives them again,
      under either filter; the rendering is empty exactly when there are none,
      and it is never absolute. */
  lemma RenderedComps(w: seq<string>)
    requires forall i :: 0 <= i < |w| ==> IsProper(w[i])
    ensures DropTrivial(Split(StrJoin("/", w))) == w
    ensures DropEmpty(Split(StrJoin("/", w))) == w
    ensures (StrJoin("/", w) == "") <==> w == []
    ensures !IsAbs(StrJoin("/", w))
  {
    FiltersKeepProper(w);
    if w != [] {
      SplitOfJoin(w);
      assert StrJoin("/", w)[0] == w[0][0];
    }
  }

  // ---------------------------------------------------------------------------
  // normpath

  /** One iteration of the loop in `normpath`: "" and "." are dropped, a
      name is pushed, and ".." pops the last name, except that a relative
      path keeps a ".." it cannot cancel and an absolute path drops it. */
  function Step(abs: bool, acc: seq<string>, c: string): seq<string> {
    if c == "" || c == "." then acc
    else if c != ".." || (!abs && acc == []) || (acc != [] && acc[|acc| - 1] == "..") then acc + [c]
    else if acc != [] then acc[..|acc| - 1]
    else acc
  }

  /** The loop in `normpath`, from the components collected so far. */
  function Walk(abs: bool, acc: seq<string>, cs: seq<string>): seq<string>
    decreases |cs|
  {
    if cs == [] then acc else Walk(abs, Step(abs, acc, cs[0]), cs[1..])
  }

  /** `os.path.normpath`: POSIX keeps exactly two leading slashes, folds one
      or three or more into one, and an empty result reads ".". */
  function NormPath(s: string): string {
    if s == "" then "."
    else
      var abs := IsAbs(s);
      var prefix := if StartsWith(s, "//") && !StartsWith(s, "///") then "//" else if abs then "/" else "";
      var p := prefix + StrJoin("/", Walk(abs, [], Split(s)));
      if p == "" then "." else p
  }

  lemma {:induction false} WalkAppend(abs: bool, acc: seq<string>, a: seq<string>, b: seq<string>)
    ensures Walk(abs, acc, a + b) == Walk(abs, Walk(abs, acc, a), b)
    decreases |a|
  {
    if a == [] {
      assert a + b == b;
    } else {
      assert (a + b)[0] == a[0];
      assert (a + b)[1..] == a[1..] + b;
      WalkAppend(abs, Step(abs, acc, a[0]), a[1..], b);
    }
  }

  /** Names are pushed one after the other. */
  lemma {:induction false} WalkNames(abs: bool, acc: seq<string>, ns: seq<Name>)
    ensures Walk(abs, acc, ns) == acc + ns
    decreases |ns|
  {
    if ns != [] {
      WalkNames(abs, acc + [ns[0]], ns[1..]);
      assert acc + [ns[0]] + ns[1..] == acc + ns;
    }
  }

  /** The loop only ever collects proper components. */
  lemma {:induction false} WalkProper(abs: bool, acc: seq<string>, cs: seq<string>)
    requires forall i :: 0 <= i < |acc| ==> IsProper(acc[i])
    requires forall i :: 0 <= i < |cs| ==> '/' !in cs[i]
    ensures forall i :: 0 <= i < |Walk(abs, acc, cs)| ==> IsProper(Walk(abs, acc, cs)[i])
    decreases |cs|
  {
    if cs != [] {
      WalkProper(abs, Step(abs, acc, cs[0]), cs[1..]);
    }
  }

  /** The components of a normalized path are the loop's result, and
      normalizing keeps a path absolute or relative. */
  lemma NormPathComps(s: string)
    ensures IsAbs(NormPath(s)) == IsAbs(s)
    ensures Comps(NormPath(s)) == Walk(IsAbs(s), [], Split(s))
    ensures IsAbs(s) ==> DropEmpty(Split(NormPath(s))) == Walk(IsAbs(s), [], Split(s))
  {
    SplitNoSeparator("");
    if s == "" {
      PlainComps("", []);
    } else {
      var w := Walk(IsAbs(s), [], Split(s));
      WalkProper(IsAbs(s), [], Split(s));
      var j := StrJoin("/", w);
      if StartsWith(s, "//") && !StartsWith(s, "///") {
        assert NormPath(s) == "/" + ("/" + j);
        RenderedComps(w);
        SlashedComps("/" + j);
        SlashedComps(j);
      } else if IsAbs(s) {
        assert NormPath(s) == "/" + j;
        RenderedComps(w);
        SlashedComps(j);
      } else {
        assert NormPath(s) == if j == "" then "." else j;
        PlainComps(j, w);
      }
    }
  }

  lemma PlainComps(j: string, w: seq<string>)
    requires j == StrJoin("/", w) && forall i :: 0 <= i < |w| ==> IsProper(w[i])
    ensures var p := if j == "" then "." else j;
      !IsAbs(p) && DropTrivial(Split(p)) == w
  {
    RenderedComps(w);
    if j == "" {
      SplitNoSeparator(".");
      assert DropTrivial(["."]) == [];
    }
  }

  lemma SlashedComps(j: string)
    ensures IsAbs("/" + j)
    ensures DropTrivial(Split("/" + j)) == DropTrivial(Split(j))
    ensures DropEmpty(Split("/" + j)) == DropEmpty(Split(j))
  {
  }

  // ---------------------------------------------------------------------------
  // join

  /** `os.path.join(a, b)`: an absolute `b` replaces `a`; otherwise one
      separator is put between them unless `a` is empty or ends in one. */
  function Join(a: string, b: string): string {
    if IsAbs(b) then b
    else if a == "" || EndsWith(a, "/") then a + b
    else a + "/" + b
  }

  /** Joining a relative path on keeps the left side absolute or relative. */
  lemma JoinKeepsKind(a: string, y: string)
    requires !IsAbs(y)
    ensures IsAbs(Join(a, y)) == IsAbs(a)
  {
  }

  /** Normalizing `join(a, y)` for a relative `y` walks `a` and then `y`. */
  lemma WalkJoin(abs: bool, acc: seq<string>, a: string, y: string)
    requires !IsAbs(y)
    ensures Walk(abs, acc, Split(Join(a, y))) == Walk(abs, Walk(abs, acc, Split(a)), Split(y))
  {
    if a == "" {
      assert Join(a, y) == y;
      assert Walk(abs, acc, [""]) == acc;
    } else if EndsWith(a, "/") {
      var a' := a[..|a| - 1];
      assert a == a' + "/" + "";
      assert Join(a, y) == a' + "/" + y;
      SplitAppend(a', y);
      SplitAppend(a', "");
      WalkAppend(abs, acc, Split(a'), Split(y));
      WalkAppend(abs, acc, Split(a'), [""]);
    } else {
      SplitAppend(a, y);
      WalkAppend(abs, acc, Split(a), Split(y));
    }
  }

  // ---------------------------------------------------------------------------
  // commonpath

  const MixedPathsMessage := "Can't mix absolute and relative paths"

  /** `os.path.commonpath([a, b])`: the separator-joined common prefix of the
      two component lists, absolute when both paths are; mixing an absolute
      and a relative path raises ValueError. */
  function CommonPath(a: string, b: string): Result<string> {
    if IsAbs(a) != IsAbs(b) then Failure(ValueError(MixedPathsMessage))
    else Success((if IsAbs(a) then "/" else "") + StrJoin("/", CommonPrefix(Comps(a), Comps(b))))
  }

  /** A path written the way `commonpath` writes one: a single leading
      separator when absolute, then its components, nothing else. */
  predicate Tidy(p: string) {
    p == (if IsAbs(p) then "/" else "") + StrJoin("/", Comps(p))
  }

  /** The common path of `a` and `b` is `b` itself exactly when both are of
      one kind, `b` is tidy, and `b`'s components begin `a`'s. */
  lemma ContainmentIff(a: string, b: string)
    ensures CommonPath(a, b) == Success(b)
        <==> IsAbs(a) == IsAbs(b) && Tidy(b) && IsPrefix(Comps(b), Comps(a))
  {
    var cp := CommonPrefix(Comps(a), Comps(b));
    var j := StrJoin("/", cp);
    RenderedComps(cp);
    SplitSlash(j);
    if CommonPath(a, b) == Success(b) {
      if IsAbs(a) {
        assert b == "/" + j;
      } else {
        assert b == j;
      }
      assert Comps(b) == cp;
    }
    if IsAbs(a) == IsAbs(b) && Tidy(b) && IsPrefix(Comps(b), Comps(a)) {
      CommonPrefixOfPrefix(Comps(b), Comps(a));
    }
  }

  // ---------------------------------------------------------------------------
  // abspath and relpath

  /** `os.path.abspath`, for the working directory `cwd`. */
  function AbsPath(p: string, cwd: string): string {
    NormPath(if IsAbs(p) then p else Join(cwd, p))
  }

  /** `os.path.join(*parts)` */
  function JoinAll(parts: seq<string>): string
    requires parts != []
  {
    if |parts| == 1 then parts[0] else Join(JoinAll(parts[..|parts| - 1]), parts[|parts| - 1])
  }

  /** `os.path.relpath(path, start)` for the working directory `cwd`
      (relpath raises ValueError for an empty `path`). */
  function RelPath(path: string, start: string, cwd: string): string
    requires path != ""
  {
    var startList := DropEmpty(Split(AbsPath(start, cwd)));
    var pathList := DropEmpty(Split(AbsPath(path, cwd)));
    var i := |CommonPrefix(startList, pathList)|;
    var relList := Repeat("..", |startList| - i) + pathList[i..];
    if relList == [] then "." else JoinAll(relList)
  }

  /** The directory `os.walk(top)` reports for the subdirectory reached through
      `dirs`: each level is joined on to the one above. */
  function WalkRoot(top: string, dirs: seq<string>): string {
    if dirs == [] then top else Join(WalkRoot(top, dirs[..|dirs| - 1]), dirs[|dirs| - 1])
  }

  /** The components `abspath` gives, before they are written out. */
  function AbsComps(p: string, cwd: string): seq<string> {
    Walk(true, [], Split(if IsAbs(p) then p else Join(cwd, p)))
  }

  lemma AbsPathComps(p: string, cwd: string)
    requires IsAbs(cwd)
    ensures DropEmpty(Split(AbsPath(p, cwd))) == AbsComps(p, cwd)
  {
    var q := if IsAbs(p) then p else Join(cwd, p);
    if !IsAbs(p) {
      JoinKeepsKind(cwd, p);
    }
    NormPathComps(q);
  }

  /** Joining a name on appends it to the absolute components. */
  lemma AbsCompsJoinName(x: string, n: Name, cwd: string)
    requires IsAbs(cwd)
    ensures AbsComps(Join(x, n), cwd) == AbsComps(x, cwd) + [n]
  {
    SplitNoSeparator(n);
    JoinKeepsKind(x, n);
    if IsAbs(x) {
      WalkJoin(true, [], x, n);
      WalkNames(true, AbsComps(x, cwd), [n]);
    } else {
      var w0 := Walk(true, [], Split(cwd));
      JoinKeepsKind(x, n);
      WalkJoin(true, [], cwd, Join(x, n));
      WalkJoin(true, w0, x, n);
      WalkJoin(true, [], cwd, x);
      WalkNames(true, Walk(true, w0, Split(x)), [n]);
    }
  }

  lemma {:induction false} AbsCompsWalkRoot(top: string, dirs: seq<Name>, cwd: string)
    requires IsAbs(cwd)
    ensures AbsComps(WalkRoot(top, dirs), cwd) == AbsComps(top, cwd) + dirs
  {
    if dirs != [] {
      var init := dirs[..|dirs| - 1];
      AbsCompsWalkRoot(top, init, cwd);
      AbsCompsJoinName(WalkRoot(top, init), dirs[|dirs| - 1], cwd);
      assert init + [dirs[|dirs| - 1]] == dirs;
    }
  }

  /** Joining names one by one writes them separated by '/'. */
  lemma {:induction false} JoinAllNames(ns: seq<Name>)
    requires ns != []
    ensures JoinAll(ns) == StrJoin("/", ns)
  {
    if |ns| > 1 {
      var init := ns[..|ns| - 1];
      var last := ns[|ns| - 1];
      var j := StrJoin("/", init);
      JoinAllNames(init);
      NotEndingInSeparator(init);
      assert JoinAll(ns) == Join(j, last);
      assert !IsAbs(last);
      assert Join(j, last) == j + "/" + last;
      StrJoinAppend("/", init, [last]);
      assert StrJoin("/", [last]) == last;
      assert init + [last] == ns;
    }
  }

  lemma {:induction false} NotEndingInSeparator(ns: seq<Name>)
    requires ns != []
    ensures StrJoin("/", ns) != "" && !EndsWith(StrJoin("/", ns), "/")
  {
    if |ns| > 1 {
      var init := ns[..|ns| - 1];
      StrJoinAppend("/", init, [ns[|ns| - 1]]);
      assert init + [ns[|ns| - 1]] == ns;
      var j := StrJoin("/", ns);
      assert j[|j| - 1] == ns[|ns| - 1][|ns[|ns| - 1]| - 1];
    } else {
      var j := StrJoin("/", ns);
      assert j == ns[0];
      assert j[|j| - 1] in ns[0];
    }
  }

  /** The path `relpath` gives a file found by `os.walk(top)` through the
      subdirectories `dirs` is those directories and the file name joined by
      '/', whatever `top` and the working directory are. */
  lemma RelPathOfWalkedFile(top: string, dirs: seq<Name>, name: Name, cwd: string)
    requires IsAbs(cwd)
    ensures Join(WalkRoot(top, dirs), name) != ""
    ensures RelPath(Join(WalkRoot(top, dirs), name), top, cwd) == StrJoin("/", dirs + [name])
  {
    var path := Join(WalkRoot(top, dirs), name);
    AbsCompsWalkRoot(top, dirs, cwd);
    AbsCompsJoinName(WalkRoot(top, dirs), name, cwd);
    AbsPathComps(top, cwd);
    AbsPathComps(path, cwd);
    var a := AbsComps(top, cwd);
    var rel: seq<Name> := dirs + [name];
    assert a + dirs + [name] == a + rel;
    assert DropEmpty(Split(AbsPath(top, cwd))) == a;
    assert DropEmpty(Split(AbsPath(path, cwd))) == a + rel;
    assert IsPrefix(a, a + rel);
    CommonPrefixOfPrefix(a, a + rel);
    assert (a + rel)[|a|..] == rel;
    assert Repeat("..", 0) + rel == rel;
    JoinAllNames(rel);
  }

  // ---------------------------------------------------------------------------
  // A relative path normalized below a canonical absolute one

  /** The canonical absolute path whose components are `r`. */
  function Absolute(r: seq<string>): string {
    "/" + StrJoin("/", r)
  }

  lemma AbsoluteComps(r: seq<Name>)
    ensures IsAbs(Absolute(r)) && Tidy(Absolute(r)) && Comps(Absolute(r)) == r
    ensures Walk(true, [], Split(Absolute(r))) == r
  {
    RenderedComps(r);
    SlashedComps(StrJoin("/", r));
    SplitSlash(StrJoin("/", r));
    if r == [] {
      SplitNoSeparator("");
      assert Split(Absolute(r)) == ["", ""];
      assert Walk(true, [], ["", ""]) == Walk(true, [], [""]) == Walk(true, [], []);
    } else {
      SplitOfJoin(r);
      WalkAppend(true, [], [""], r);
      WalkNames(true, [], r);
    }
  }

  /** The number of ".." components a normalized relative path starts with. */
  function Ups(w: seq<string>): (k: nat)
    ensures k <= |w|
    ensures forall i :: 0 <= i < k ==> w[i] == ".."
    ensures k < |w| ==> w[k] != ".."
  {
    if w != [] && w[0] == ".." then 1 + Ups(w[1..]) else 0
  }

  /** What is left of the components `r` after `k` steps up; the root has no parent. */
  function Climb(r: seq<string>, k: nat): seq<string> {
    if k <= |r| then r[..|r| - k] else []
  }

  lemma {:induction false} UpsOfDotsAndNames(k: nat, t: seq<Name>)
    ensures Ups(Repeat("..", k) + t) == k
  {
    if k == 0 {
      assert Repeat("..", k) + t == t;
    } else {
      UpsOfDotsAndNames(k - 1, t);
      var w := Repeat("..", k) + t;
      assert w[0] == "..";
      assert w[1..] == Repeat("..", k - 1) + t;
    }
  }

  /** One iteration of both loops, from the state "k steps up, then the names t". */
  lemma StepBelowRoot(r: seq<Name>, k: nat, t: seq<Name>, c: string) returns (k': nat, t': seq<Name>)
    requires '/' !in c
    ensures Step(false, Repeat("..", k) + t, c) == Repeat("..", k') + t'
    ensures Step(true, Climb(r, k) + t, c) == Climb(r, k') + t'
  {
    if c == "" || c == "." {
      k', t' := k, t;
    } else if c != ".." {
      var n: Name := c;
      k', t' := k, t + [n];
      assert Repeat("..", k) + t + [c] == Repeat("..", k') + t';
      assert Climb(r, k) + t + [c] == Climb(r, k') + t';
    } else if t == [] {
      k', t' := k + 1, t;
      UpFromRoot(r, k);
    } else {
      k', t' := k, t[..|t| - 1];
      UpFromName(r, k, t);
    }
  }

  /** ".." right after the leading ".." steps: one more step up. */
  lemma UpFromRoot(r: seq<Name>, k: nat)
    ensures Step(false, Repeat("..", k), "..") == Repeat("..", k + 1)
    ensures Step(true, Climb(r, k), "..") == Climb(r, k + 1)
  {
  }

  /** ".." after a name: the name is cancelled. */
  lemma UpFromName(r: seq<Name>, k: nat, t: seq<Name>)
    requires t != []
    ensures Step(false, Repeat("..", k) + t, "..") == Repeat("..", k) + t[..|t| - 1]
    ensures Step(true, Climb(r, k) + t, "..") == Climb(r, k) + t[..|t| - 1]
  {
  }

  /** Normalizing a relative path on its own leaves some leading ".." steps
      and then names; normalizing it below the canonical components `r`
      climbs that many levels out of `r` and then appends the same names.
      The accumulators are the state of both loops part-way through. */
  lemma {:induction false} WalkUnderRoot(r: seq<Name>, k: nat, t: seq<Name>, cs: seq<string>)
    requires forall i :: 0 <= i < |cs| ==> '/' !in cs[i]
    ensures var w := Walk(false, Repeat("..", k) + t, cs); var u := Ups(w);
      && (forall i :: u <= i < |w| ==> IsName(w[i]))
      && Walk(true, Climb(r, k) + t, cs) == Climb(r, u) + w[u..]
    decreases |cs|
  {
    if cs == [] {
      UpsOfDotsAndNames(k, t);
      assert (Repeat("..", k) + t)[k..] == t;
    } else {
      var k', t' := StepBelowRoot(r, k, t, cs[0]);
      WalkUnderRoot(r, k', t', cs[1..]);
    }
  }

  /** The normalized join of a canonical root and a relative request: absolute,
      with the root's components climbed by the request's leading ".." steps
      and the request's remaining names appended. */
  lemma CandidateBelowRoot(r: seq<Name>, q: string)
    requires !IsAbs(q)
    ensures var w := Walk(false, [], Split(q)); var u := Ups(w);
      && (forall i :: u <= i < |w| ==> IsName(w[i]))
      && IsAbs(NormPath(Join(Absolute(r), q)))
      && Comps(NormPath(Join(Absolute(r), q))) == Climb(r, u) + w[u..]
  {
    var j := Join(Absolute(r), q);
    AbsoluteComps(r);
    JoinKeepsKind(Absolute(r), q);
    NormPathComps(j);
    WalkJoin(true, [], Absolute(r), q);
    WalkUnderRoot(r, 0, [], Split(q));
    assert Repeat("..", 0) + [] == [];
    assert Climb(r, 0) + [] == r;
  }

  /** The components a relative request `q` names below the canonical root
      with components `r`, once normalized: the root climbed by the leading
      ".." steps of `q`, then the names `q` goes on with. */
  function Below(r: seq<Name>, q: string): seq<string> {
    var w := Walk(false, [], Split(q));
    Climb(r, Ups(w)) + w[Ups(w)..]
  }

  /** Normalizing a relative request joined on to a canonical root gives the
      canonical path of the components it names. */
  lemma NormalizedBelowRoot(r: seq<Name>, q: string)
    requires !IsAbs(q)
    ensures forall i :: 0 <= i < |Below(r, q)| ==> IsName(Below(r, q)[i])
    ensures NormPath(Join(Absolute(r), q)) == Absolute(Below(r, q))
  {
    var a := Absolute(r);
    var j := Join(a, q);
    CandidateBelowRoot(r, q);
    NormPathComps(j);
    assert IsAbs(j) && j != "";
    JoinSingleSlash(r, q);
  }

  /** The join of a canonical root and a relative request starts with one
      separator only. */
  lemma JoinSingleSlash(r: seq<Name>, q: string)
    requires !IsAbs(q)
    ensures var j := Join(Absolute(r), q); IsAbs(j) && !StartsWith(j, "//")
  {
    var a := Absolute(r);
    var j := Join(a, q);
    if r != [] {
      var rest := if |r| == 1 then "" else "/" + StrJoin("/", r[1..]);
      assert StrJoin("/", r) == r[0] + rest;
      assert a[1] == r[0][0];
      assert r[0][0] != '/' by {
        assert r[0][0] in r[0];
      }
      assert j[..2] == a[..2];
    } else {
      assert j == "/" + q;
      if q != "" {
        assert j[1] == q[0];
      }
    }
  }

  /** A name followed by ".." cancels out, whatever was collected before. */
  lemma CancelPair(abs: bool, acc: seq<string>, d: Name, cs: seq<string>)
    ensures Walk(abs, acc, [d, ".."] + cs) == Walk(abs, acc, cs)
  {
  }

  /** `normpath("d/../f")` is `"f"` for names `d` and `f`. */
  lemma NameUpName(d: Name, f: Name)
    ensures NormPath(d + "/../" + f) == f
  {
    var cs := [d, "..", f];
    assert cs[2..] == [f] && cs[1..] == ["..", f];
    assert StrJoin("/", cs[2..]) == f;
    assert StrJoin("/", cs[1..]) == ".." + "/" + f;
    assert StrJoin("/", cs) == d + "/" + (".." + "/" + f);
    assert d + "/" + (".." + "/" + f) == d + "/../" + f;
    assert forall i :: 0 <= i < |cs| ==> '/' !in cs[i];
    SplitOfJoin(cs);
    CancelPair(false, [], d, [f]);
    assert [d, ".."] + [f] == cs;
    assert Walk(false, [], [f]) == [f] by {
      WalkNames(false, [], [f]);
    }
    var s := d + "/../" + f;
    assert s[0] == d[0] && d[0] in d;
    assert !IsAbs(s) && !StartsWith(s, "//");
    assert Split(s) == cs;
    assert Walk(false, [], Split(s)) == [f];
    assert StrJoin("/", [f]) == f;
  }
}
