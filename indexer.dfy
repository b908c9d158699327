/** The code indexer: collects the text files of a code directory as
    documents tagged with their relative path, hands them to a splitter and
    a vector store, and answers searches from that store, loading it from
    the persistence directory the first time when it was not built in this
    process. The directory walk, the file loader, the splitter, the vector
    store and its similarity search are parameters: their behaviour belongs
    to libraries outside this code. */
module Indexer {
  import opened Common
  import opened PosixPath

  /** A loaded text with its metadata (langchain's Document). */
  datatype Document = Document(pageContent: string, metadata: map<string, string>)

  /** A vector store over chunks, kept at a persistence directory. */
  datatype Store = Store(chunks: seq<Document>, persistDirectory: string)

  /** One directory reported by `os.walk(code_dir)`: its path below code_dir
      as a list of subdirectory names, and the names of the files in it. */
  datatype WalkStep = WalkStep(dirs: seq<Name>, files: seq<Name>)

  /** What opening a persisted store gives: the store, or the text of the
      exception the store library raised. */
  datatype Loaded = Loaded(store: Store) | LoadError(message: string)

  const DefaultExtensions: seq<string> := [".py", ".md", ".txt"]
  const DefaultPersistDir := ".chroma_index"
  const NoDocumentsMessage := "No documents found to index in the specified codebase directory."
  const NoContentMessage := "No processable content found in documents to build the index"
  const Delimiter := "\n---\n"

  function NotFoundMessage(persistDir: string): string {
    "Persistence directory '" + persistDir + "' not found. Please build the index first."
  }

  function LoadFailureMessage(persistDir: string, cause: string): string {
    "Failed to load index from '" + persistDir + "'. Ensure it's a valid index or build it first. Original error: " + cause
  }

  /** `any(name.endswith(ext) for ext in exts)` */
  function Admitted(name: string, exts: seq<string>): (b: bool)
    ensures b <==> exists i :: 0 <= i < |exts| && EndsWith(name, exts[i])
  {
    if exts == [] then false
    else EndsWith(name, exts[0]) || Admitted(name, exts[1..])
  }

  /** A loaded document with its "source" metadata set to `source`. */
  function Tag(d: Document, source: string): Document {
    Document(d.pageContent, d.metadata["source" := source])
  }

  /** Every document of `docs`, tagged with `source`, in order. */
  function TagAll(docs: seq<Document>, source: string): (r: seq<Document>)
    ensures |r| == |docs|
    ensures forall i :: 0 <= i < |r| ==> r[i].pageContent == docs[i].pageContent
    ensures forall i :: 0 <= i < |r| ==> r[i].metadata == docs[i].metadata["source" := source]
  {
    if docs == [] then [] else TagAll(docs[..|docs| - 1], source) + [Tag(docs[|docs| - 1], source)]
  }

  lemma TagAllStep(docs: seq<Document>, source: string, m: nat)
    requires m < |docs|
    ensures TagAll(docs[..m + 1], source) == TagAll(docs[..m], source) + [Tag(docs[m], source)]
  {
  }

  /** `f"{doc.metadata.get('source', '')}:\n{doc.page_content}"` */
  function Snippet(d: Document): (r: string)
    ensures "source" !in d.metadata ==> r == ":\n" + d.pageContent
    ensures "source" in d.metadata ==> StartsWith(r, d.metadata["source"] + ":\n")
    ensures "source" in d.metadata ==> |r| == |d.metadata["source"]| + 2 + |d.pageContent|
    ensures EndsWith(r, d.pageContent)
  {
    (if "source" in d.metadata then d.metadata["source"] else "") + ":\n" + d.pageContent
  }

  /** One snippet per result, in result order. */
  function Snippets(results: seq<Document>): (r: seq<string>)
    ensures |r| == |results|
    ensures forall i :: 0 <= i < |r| ==> r[i] == Snippet(results[i])
  {
    if results == [] then [] else Snippets(results[..|results| - 1]) + [Snippet(results[|results| - 1])]
  }

  /** The text `search` returns for a list of results. */
  function Format(results: seq<Document>): (r: string)
    ensures results == [] ==> r == ""
    ensures |results| == 1 ==> r == Snippet(results[0])
  {
    StrJoin(Delimiter, Snippets(results))
  }

  /** What `search` returns for the outcome of a similarity search: the
      formatted results, or the exception the search raised. */
  function Answer(found: Result<seq<Document>>): Result<string> {
    if found.Failure? then Failure(found.error) else Success(Format(found.value))
  }

  /** Formatting is a homomorphism: the snippets of two runs of results are
      separated by exactly one delimiter. */
  lemma FormatAppend(xs: seq<Document>, ys: seq<Document>)
    requires xs != [] && ys != []
    ensures Format(xs + ys) == Format(xs) + Delimiter + Format(ys)
  {
    assert Snippets(xs + ys) == Snippets(xs) + Snippets(ys);
    StrJoinAppend(Delimiter, Snippets(xs), Snippets(ys));
  }

  /** Each result's snippet stands in the formatted text between the
      snippets of the results before it and those after it. */
  lemma FormatAt(results: seq<Document>, i: nat)
    requires i < |results|
    ensures Format(results) ==
      (if i == 0 then "" else Format(results[..i]) + Delimiter)
      + Snippet(results[i])
      + (if i == |results| - 1 then "" else Delimiter + Format(results[i + 1..]))
  {
    var before := if i == 0 then "" else Format(results[..i]) + Delimiter;
    var after := if i == |results| - 1 then "" else Delimiter + Format(results[i + 1..]);
    FormatSuffix(results, i);
    if i > 0 {
      assert results == results[..i] + results[i..];
      FormatAppend(results[..i], results[i..]);
    } else {
      assert results == results[i..];
    }
    assert Format(results) == before + Format(results[i..]);
  }

  lemma FormatSuffix(results: seq<Document>, i: nat)
    requires i < |results|
    ensures Format(results[i..]) ==
      Snippet(results[i]) + (if i == |results| - 1 then "" else Delimiter + Format(results[i + 1..]))
  {
    FormatFront(results[i..]);
    assert results[i..][1..] == results[i + 1..];
  }

  /** The first snippet, then the others after one delimiter. */
  lemma FormatFront(results: seq<Document>)
    requires results != []
    ensures Format(results) ==
      Snippet(results[0]) + (if |results| == 1 then "" else Delimiter + Format(results[1..]))
  {
    if |results| > 1 {
      assert results == [results[0]] + results[1..];
      FormatAppend([results[0]], results[1..]);
    }
  }

  class CodeIndexer {
    const codeDir: string
    const persistDir: string
    const allowedExtensions: seq<string>
    var store: Option<Store>

    /** The dataclass constructor with `__post_init__`: no store yet, and the
        default extensions when none are given. */
    constructor (codeDir: string, persistDir: string := DefaultPersistDir, allowedExtensions: Option<seq<string>> := None)
      ensures this.codeDir == codeDir && this.persistDir == persistDir
      ensures allowedExtensions.None? ==> this.allowedExtensions == DefaultExtensions
      ensures allowedExtensions.Some? ==> this.allowedExtensions == allowedExtensions.value
      ensures store == None
    {
      this.codeDir := codeDir;
      this.persistDir := persistDir;
      this.allowedExtensions := if allowedExtensions.None? then DefaultExtensions else allowedExtensions.value;
      store := None;
    }

    /** The path `build` loads the file `name` found below `code_dir` through `dirs`. */
    function FilePath(dirs: seq<Name>, name: Name): (p: string)
      ensures p != ""
    {
      Join(WalkRoot(codeDir, dirs), name)
    }

    /** The documents `build` collects from one file. */
    function FileDocuments(cwd: string, load: string -> seq<Document>, dirs: seq<Name>, name: Name): seq<Document> {
      if !Admitted(name, allowedExtensions) then []
      else TagAll(load(FilePath(dirs, name)), RelPath(FilePath(dirs, name), codeDir, cwd))
    }

    /** The documents `build` collects from the files of one directory, in order. */
    function DirDocuments(cwd: string, load: string -> seq<Document>, dirs: seq<Name>, files: seq<Name>): seq<Document> {
      if files == [] then []
      else DirDocuments(cwd, load, dirs, files[..|files| - 1]) + FileDocuments(cwd, load, dirs, files[|files| - 1])
    }

    /** The documents `build` collects from the whole walk, in walk order. */
    function WalkDocuments(cwd: string, load: string -> seq<Document>, walk: seq<WalkStep>): seq<Document> {
      if walk == [] then []
      else WalkDocuments(cwd, load, walk[..|walk| - 1]) + DirDocuments(cwd, load, walk[|walk| - 1].dirs, walk[|walk| - 1].files)
    }

    lemma DirDocumentsStep(cwd: string, load: string -> seq<Document>, dirs: seq<Name>, files: seq<Name>, j: nat)
      requires j < |files|
      ensures DirDocuments(cwd, load, dirs, files[..j + 1])
           == DirDocuments(cwd, load, dirs, files[..j]) + FileDocuments(cwd, load, dirs, files[j])
    {
      assert files[..j + 1][..j] == files[..j];
    }

    lemma WalkDocumentsStep(cwd: string, load: string -> seq<Document>, walk: seq<WalkStep>, i: nat)
      requires i < |walk|
      ensures WalkDocuments(cwd, load, walk[..i + 1])
           == WalkDocuments(cwd, load, walk[..i]) + DirDocuments(cwd, load, walk[i].dirs, walk[i].files)
    {
      assert walk[..i + 1][..i] == walk[..i];
    }

    /** The document `d` is one that the loader gave for the admitted file
        `name` below `dirs`, tagged with that file's walked path. */
    ghost predicate FromFile(d: Document, load: string -> seq<Document>, dirs: seq<Name>, name: Name) {
      && Admitted(name, allowedExtensions)
      && exists e :: e in load(FilePath(dirs, name)) && d == Tag(e, StrJoin("/", dirs + [name]))
    }

    /** The "source" `build` stores for a file is its path below the code
        directory, written with the walked directory names. */
    lemma FileDocumentsSource(cwd: string, load: string -> seq<Document>, dirs: seq<Name>, name: Name)
      requires IsAbs(cwd)
      ensures FileDocuments(cwd, load, dirs, name) ==
        if Admitted(name, allowedExtensions) then TagAll(load(FilePath(dirs, name)), StrJoin("/", dirs + [name])) else []
    {
      RelPathOfWalkedFile(codeDir, dirs, name, cwd);
    }

    lemma FileProvenance(cwd: string, load: string -> seq<Document>, dirs: seq<Name>, name: Name)
      requires IsAbs(cwd)
      ensures forall d :: d in FileDocuments(cwd, load, dirs, name) ==> FromFile(d, load, dirs, name)
    {
      FileDocumentsSource(cwd, load, dirs, name);
      var docs := FileDocuments(cwd, load, dirs, name);
      forall d | d in docs
        ensures FromFile(d, load, dirs, name)
      {
        var loaded := load(FilePath(dirs, name));
        var i :| 0 <= i < |docs| && docs[i] == d;
        assert d == Tag(loaded[i], StrJoin("/", dirs + [name]));
        assert loaded[i] in loaded;
      }
    }

    lemma {:induction false} DirProvenance(cwd: string, load: string -> seq<Document>, dirs: seq<Name>, files: seq<Name>)
      requires IsAbs(cwd)
      ensures forall d :: d in DirDocuments(cwd, load, dirs, files) ==>
        exists n :: n in files && FromFile(d, load, dirs, n)
    {
      if files != [] {
        var init, last := files[..|files| - 1], files[|files| - 1];
        DirProvenance(cwd, load, dirs, init);
        FileProvenance(cwd, load, dirs, last);
        forall d | d in DirDocuments(cwd, load, dirs, files)
          ensures exists n :: n in files && FromFile(d, load, dirs, n)
        {
          if d in DirDocuments(cwd, load, dirs, init) {
            var n :| n in init && FromFile(d, load, dirs, n);
            assert n in files;
          } else {
            assert last in files;
          }
        }
      }
    }

    /** Provenance: every document `build` collects is a document the loader
        gave for an admitted file of the walk, with "source" set to that
        file's path below the code directory. */
    lemma {:induction false} WalkProvenance(cwd: string, load: string -> seq<Document>, walk: seq<WalkStep>)
      requires IsAbs(cwd)
      ensures forall d :: d in WalkDocuments(cwd, load, walk) ==>
        exists s, n :: s in walk && n in s.files && FromFile(d, load, s.dirs, n)
    {
      if walk != [] {
        var init, last := walk[..|walk| - 1], walk[|walk| - 1];
        WalkProvenance(cwd, load, init);
        DirProvenance(cwd, load, last.dirs, last.files);
        forall d | d in WalkDocuments(cwd, load, walk)
          ensures exists s, n :: s in walk && n in s.files && FromFile(d, load, s.dirs, n)
        {
          if d in WalkDocuments(cwd, load, init) {
            var s, n :| s in init && n in s.files && FromFile(d, load, s.dirs, n);
            assert s in walk;
          } else {
            var n :| n in last.files && FromFile(d, load, last.dirs, n);
            assert last in walk;
          }
        }
      }
    }

    /** A file contributes nothing exactly when it is not admitted or loads to nothing. */
    lemma FileDocumentsEmpty(cwd: string, load: string -> seq<Document>, dirs: seq<Name>, name: Name)
      ensures FileDocuments(cwd, load, dirs, name) == [] <==>
        (Admitted(name, allowedExtensions) ==> load(FilePath(dirs, name)) == [])
    {
      if Admitted(name, allowedExtensions) {
        var loaded := load(FilePath(dirs, name));
        assert |FileDocuments(cwd, load, dirs, name)| == |loaded|;
      }
    }

    lemma {:induction false} DirDocumentsEmpty(cwd: string, load: string -> seq<Document>, dirs: seq<Name>, files: seq<Name>)
      ensures DirDocuments(cwd, load, dirs, files) == [] <==>
        forall n :: n in files && Admitted(n, allowedExtensions) ==> load(FilePath(dirs, n)) == []
    {
      if files != [] {
        var init, last := files[..|files| - 1], files[|files| - 1];
        DirDocumentsEmpty(cwd, load, dirs, init);
        FileDocumentsEmpty(cwd, load, dirs, last);
        var a, b := DirDocuments(cwd, load, dirs, init), FileDocuments(cwd, load, dirs, last);
        assert DirDocuments(cwd, load, dirs, files) == a + b;
        assert a + b == [] <==> a == [] && b == [] by {
          assert |a + b| == |a| + |b|;
        }
        forall n | n in files
          ensures n in init || n == last
        {
          var k :| 0 <= k < |files| && files[k] == n;
          if k < |files| - 1 {
            assert init[k] == n;
          }
        }
      }
    }

    /** `build` finds no documents exactly when every admitted file of the
        walk loads to nothing (in particular when no file is admitted). */
    lemma {:induction false} WalkDocumentsEmpty(cwd: string, load: string -> seq<Document>, walk: seq<WalkStep>)
      ensures WalkDocuments(cwd, load, walk) == [] <==>
        forall s, n :: s in walk && n in s.files && Admitted(n, allowedExtensions) ==> load(FilePath(s.dirs, n)) == []
    {
      if walk != [] {
        var init, last := walk[..|walk| - 1], walk[|walk| - 1];
        WalkDocumentsEmpty(cwd, load, init);
        DirDocumentsEmpty(cwd, load, last.dirs, last.files);
        assert walk == init + [last];
        assert forall s :: s in walk <==> s in init || s == last;
      }
    }

    /** The body of `build`'s loop over the files of one walked directory:
        the documents of its admitted files, in file order. */
    method CollectDirectory(cwd: string, load: string -> seq<Document>, dirs: seq<Name>, files: seq<Name>)
      returns (documents: seq<Document>)
      ensures documents == DirDocuments(cwd, load, dirs, files)
    {
      documents := [];
      var j := 0;
      while j < |files|
        invariant 0 <= j <= |files|
        invariant documents == DirDocuments(cwd, load, dirs, files[..j])
      {
        var found := CollectFile(cwd, load, dirs, files[j]);
        documents := documents + found;
        DirDocumentsStep(cwd, load, dirs, files, j);
        j := j + 1;
      }
      assert files[..j] == files;
    }

    /** The body of `build`'s loop over one file name: nothing when the name
        has none of the allowed extensions, else each loaded document with
        its "source" set to the file's path relative to the code directory. */
    method CollectFile(cwd: string, load: string -> seq<Document>, dirs: seq<Name>, name: Name)
      returns (documents: seq<Document>)
      ensures documents == FileDocuments(cwd, load, dirs, name)
    {
      documents := [];
      if !Admitted(name, allowedExtensions) {
        return;
      }
      var path := Join(WalkRoot(codeDir, dirs), name);
      var source := RelPath(path, codeDir, cwd);
      var loaded := load(path);
      var m := 0;
      while m < |loaded|
        invariant 0 <= m <= |loaded|
        invariant documents == TagAll(loaded[..m], source)
      {
        documents := documents + [Tag(loaded[m], source)];
        TagAllStep(loaded, source, m);
        m := m + 1;
      }
      assert loaded[..m] == loaded;
    }

    /** Builds the index: walks the code directory, collects every admitted
        file's documents tagged with their relative path, splits them, and
        replaces the store by one built from the chunks. With no documents, or
        no chunks, it raises RuntimeError and keeps the store it had. Creating
        the store can raise, and then the old store is kept; persisting it can
        raise after the new store is already held. */
    method Build(cwd: string, walk: seq<WalkStep>, load: string -> seq<Document>, split: seq<Document> -> seq<Document>,
                 create: (seq<Document>, string) -> Outcome, persist: Store -> Outcome)
      returns (r: Outcome)
      modifies this
      ensures var documents := WalkDocuments(cwd, load, walk);
        var built := Store(split(documents), persistDir);
        && (documents == [] ==> r == Fail(RuntimeError(NoDocumentsMessage)) && store == old(store))
        && (documents != [] && split(documents) == [] ==> r == Fail(RuntimeError(NoContentMessage)) && store == old(store))
        && (documents != [] && split(documents) != [] ==>
              if create(split(documents), persistDir).Fail? then
                r == create(split(documents), persistDir) && store == old(store)
              else
                r == persist(built) && store == Some(built))
    {
      var documents: seq<Document> := [];
      var i := 0;
      while i < |walk|
        invariant 0 <= i <= |walk|
        invariant documents == WalkDocuments(cwd, load, walk[..i])
        invariant store == old(store)
      {
        var found := CollectDirectory(cwd, load, walk[i].dirs, walk[i].files);
        documents := documents + found;
        WalkDocumentsStep(cwd, load, walk, i);
        i := i + 1;
      }
      assert walk[..i] == walk;
      if documents == [] {
        return Fail(RuntimeError(NoDocumentsMessage));
      }
      var docs := split(documents);
      if docs == [] {
        return Fail(RuntimeError(NoContentMessage));
      }
      var created := create(docs, persistDir);
      if created.Fail? {
        return created;
      }
      store := Some(Store(docs, persistDir));
      r := persist(store.value);
    }

    /** Searches the index, first loading it from the persistence directory
        when no store is held. A held store is used as it is; a missing
        persistence directory or a store that fails to open raises
        IndexNotReadyError and leaves the indexer without a store. A store
        that was loaded is kept even when the similarity search then raises. */
    method Search(query: string, fs: FileSystem, load: string -> Loaded,
                  similarity: (Store, string, int) -> Result<seq<Document>>, k: int := 4)
      returns (r: Result<string>)
      modifies this
      ensures old(store).Some? ==>
        store == old(store) && r == Answer(similarity(store.value, query, k))
      ensures old(store).None? && !IsDir(fs, persistDir) ==>
        store == None && r == Failure(IndexNotReadyError(LoadFailureMessage(persistDir, NotFoundMessage(persistDir))))
      ensures old(store).None? && IsDir(fs, persistDir) && load(persistDir).LoadError? ==>
        store == None && r == Failure(IndexNotReadyError(LoadFailureMessage(persistDir, load(persistDir).message)))
      ensures old(store).None? && IsDir(fs, persistDir) && load(persistDir).Loaded? ==>
        store == Some(load(persistDir).store) && r == Answer(similarity(load(persistDir).store, query, k))
    {
      if store.None? {
        if !IsDir(fs, persistDir) {
          return Failure(IndexNotReadyError(LoadFailureMessage(persistDir, NotFoundMessage(persistDir))));
        }
        match load(persistDir)
        case LoadError(message) =>
          return Failure(IndexNotReadyError(LoadFailureMessage(persistDir, message)));
        case Loaded(s) =>
          store := Some(s);
      }
      var found := similarity(store.value, query, k);
      if found.Failure? {
        return Failure(found.error);
      }
      var results := found.value;
      var snippets: seq<string> := [];
      var i := 0;
      while i < |results|
        invariant 0 <= i <= |results|
        invariant snippets == Snippets(results[..i])
      {
        snippets := snippets + [Snippet(results[i])];
        i := i + 1;
        assert results[..i][..i - 1] == results[..i - 1];
      }
      assert results[..i] == results;
      r := Success(StrJoin(Delimiter, snippets));
    }
  }
}
