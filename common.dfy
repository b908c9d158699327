/** Shared vocabulary of the code researcher core: results and the Python
    exceptions the core raises, the file map the tools read, and the
    string helpers (`str.join`, `str.startswith`, `str.endswith`) that the
    path and indexing code is written with. */
module Common {

  datatype Option<+T> = None | Some(value: T)

  /** A call that either returns a value or raises one of `Exception`. */
  datatype Result<+T> = Success(value: T) | Failure(error: Exception)

  /** A call that returns nothing or raises. */
  datatype Outcome = Pass | Fail(error: Exception)

  /** The exceptions raised by the core, each with the argument it is raised with.
      `IndexNotReadyError` is the project's own error class; `Other` is any
      other exception class, by name, as a library (the vector store, the
      embedding client) may raise it. */
  datatype Exception =
    | ValueError(message: string)
    | FileNotFoundError(filename: string)
    | RuntimeError(message: string)
    | IndexNotReadyError(message: string)
    | UnicodeDecodeError
    | Other(kind: string, message: string)

  /** What the operating system reports for a path. A regular file holds its
      UTF-8 decoding, or None when its bytes are not valid UTF-8. */
  datatype Entry = File(text: Option<string>) | Directory

  /** The file system as seen through path strings: a path maps to an entry;
      a path that is absent does not exist. */
  type FileSystem = map<string, Entry>

  /** `os.path.isfile` */
  predicate IsFile(fs: FileSystem, p: string) {
    p in fs && fs[p].File?
  }

  /** `os.path.exists(p) and os.path.isdir(p)` */
  predicate IsDir(fs: FileSystem, p: string) {
    p in fs && fs[p].Directory?
  }

  /** `s.startswith(prefix)` */
  predicate StartsWith(s: string, prefix: string) {
    |prefix| <= |s| && s[..|prefix|] == prefix
  }

  /** `s.endswith(suffix)` */
  predicate EndsWith(s: string, suffix: string) {
    |suffix| <= |s| && s[|s| - |suffix|..] == suffix
  }

  /** `p` is an initial segment of `s` (element-wise, for any sequence). */
  predicate IsPrefix<T(==)>(p: seq<T>, s: seq<T>) {
    |p| <= |s| && s[..|p|] == p
  }

  /** `[x] * n` */
  function Repeat<T>(x: T, n: nat): (r: seq<T>)
    ensures |r| == n
    ensures forall i :: 0 <= i < n ==> r[i] == x
  {
    if n == 0 then [] else Repeat(x, n - 1) + [x]
  }

  /** The longest common initial segment of two sequences. */
  function CommonPrefix<T(==)>(a: seq<T>, b: seq<T>): (r: seq<T>)
    ensures IsPrefix(r, a) && IsPrefix(r, b)
    ensures |r| < |a| && |r| < |b| ==> a[|r|] != b[|r|]
  {
    if a == [] || b == [] || a[0] != b[0] then []
    else [a[0]] + CommonPrefix(a[1..], b[1..])
  }

  /** A common prefix that is a prefix of the other sequence is all of it. */
  lemma CommonPrefixOfPrefix<T>(p: seq<T>, s: seq<T>)
    requires IsPrefix(p, s)
    ensures CommonPrefix(s, p) == p && CommonPrefix(p, s) == p
  {
  }

  /** `sep.join(parts)` */
  function StrJoin(sep: string, parts: seq<string>): string {
    if |parts| == 0 then ""
    else parts[0] + (if |parts| == 1 then "" else sep + StrJoin(sep, parts[1..]))
  }

  /** Joining two non-empty lists puts exactly one separator between their joins. */
  lemma {:induction false} StrJoinAppend(sep: string, xs: seq<string>, ys: seq<string>)
    requires xs != [] && ys != []
    ensures StrJoin(sep, xs + ys) == StrJoin(sep, xs) + sep + StrJoin(sep, ys)
  {
    if |xs| == 1 {
      assert (xs + ys)[1..] == ys;
    } else {
      assert (xs + ys)[1..] == xs[1..] + ys;
      StrJoinAppend(sep, xs[1..], ys);
    }
  }
}
