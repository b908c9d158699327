# code-researcher: a verified model of the indexer and the file tools

code-researcher is an agent that answers questions about a codebase. Its
tools need two things of the repository's own code.

- **`CodeIndexer`** (`code_researcher_agent/indexer.py`) walks a code
  directory and loads every file whose name ends with an allowed extension.
  It tags each loaded document with its path relative to the directory,
  splits the documents into chunks and builds a vector store from them.
  `search` answers a query from that store. If no store was built in this
  process, it first loads one from the persistence directory. It then
  formats each result as `"<source>:\n<content>"` and joins the results
  with `"\n---\n"`.
- **`CodeResearchTools`** (`code_researcher_agent/tools.py`) exposes
  `search_code`, which passes the query through to the indexer, and
  `read_file`. `read_file` joins the requested path onto the code
  directory, normalizes the result and resolves it and the directory
  through `realpath`. It refuses the request unless the common path of the
  two resolved paths is the resolved directory. Otherwise it reads the
  regular file at the resolved path.

The model is split into four modules.

- `Common` (`common.dfy`) holds results, the exceptions the core raises,
  the file map and the string helpers.
- `PosixPath` (`posix_path.dfy`) models the POSIX path functions the core
  calls, written as CPython's `posixpath` writes them: `join`, `normpath`,
  `commonpath`, `abspath`, `relpath`, and the root that `os.walk` builds for
  each directory. It proves the facts about them that the core relies on.
- `Indexer` (`indexer.dfy`) models the class `CodeIndexer`. Its field
  `store` is updated in place. `build` and `search` are methods with their
  loops, proved against specification functions of the walk and of the
  results.
- `Tools` (`tools.dfy`) states what reading gives
  as a function, `ReadOutcome`. The method `CodeResearchTools.ReadFile` is
  written the way `read_file` is, with `commonpath`, and is proved equal to
  `ReadOutcome`.

The parts that belong to libraries or to the operating system are
parameters of the model:

- `realpath`: any function from strings to strings;
- the directory walk: a list of `(directories below the root, file names)`
  steps;
- the file loader and the splitter: functions;
- creating and persisting the vector store, and the similarity search:
  functions that either give their result or raise;
- the loading of a persisted store: a function that gives a store or an
  error text;
- the file system: a map from path strings to entries;
- the working directory: a string.

Containment is proved for every resolver. The escape cases are proved for
`NoLinks`, the resolver of a file system without symbolic links. On an
absolute normalized path, it writes the path canonically: one leading `"/"`,
then the components joined with `"/"`. So it folds the two leading
separators that `normpath` keeps, as `realpath` does. The code directory is
written canonically as `Absolute(root)`.

## Model

| member | source | states |
|---|---|---|
| Common.CommonPrefix | code_researcher_agent/tools.py:37 | the result is an initial segment of both component lists, and it stops only at the end of one of them or where they differ: the common part `commonpath` keeps |
| Common.StrJoinAppend | code_researcher_agent/indexer.py:79 | `sep.join` of two non-empty lists is the two joins with exactly one separator between them |
| Common.StrJoin | code_researcher_agent/indexer.py:79 | `sep.join(parts)`: the parts in order with `sep` between each two, "" for no parts |
| Common.EndsWith | code_researcher_agent/indexer.py:37 | `s.endswith(suffix)`: the last `len(suffix)` characters of `s` are `suffix` |
| Common.IsFile | code_researcher_agent/tools.py:39 | `os.path.isfile`: the path is present in the file map as a regular file |
| Common.IsDir | code_researcher_agent/indexer.py:61 | `os.path.exists(p) and os.path.isdir(p)`: the path is present as a directory |
| Common.StartsWith | code_researcher_agent/tools.py:34 | `s.startswith(prefix)`: the first `len(prefix)` characters of `s` are `prefix`; it decides `normpath`'s two-separator rule |
| Common.Repeat | code_researcher_agent/indexer.py:43 | `[x] * n`: a list of length n whose every element is x; `relpath` climbs with `[pardir] * n` |
| PosixPath.Split | code_researcher_agent/tools.py:34 | `str.split("/")` gives at least one piece, and no piece holds a separator |
| PosixPath.JoinOfSplit | code_researcher_agent/tools.py:34 | joining the pieces of a split with "/" gives back the string |
| PosixPath.SplitOfJoin | code_researcher_agent/tools.py:34 | splitting the "/"-join of separator-free pieces gives back the pieces |
| PosixPath.Comps | code_researcher_agent/tools.py:37 | the components `commonpath` compares (pieces other than "" and ".") are proper names: not empty, not ".", no separator |
| PosixPath.IsAbs | code_researcher_agent/tools.py:34 | `os.path.isabs`: the path starts with "/"; `join`, `normpath`, `commonpath` (tools.py:37) and `abspath` branch on it |
| PosixPath.DropTrivial | code_researcher_agent/tools.py:37 | `commonpath`'s `[c for c in s if c and c != '.']`: the pieces other than "" and ".", in order |
| PosixPath.DropEmpty | code_researcher_agent/indexer.py:43 | `relpath`'s `[x for x in s if x]`: the non-empty pieces, in order |
| PosixPath.Absolute | code_researcher_agent/tools.py:35-36 | the canonical absolute path of a list of components: one leading "/", then the components joined with "/" |
| PosixPath.RenderedComps | code_researcher_agent/tools.py:37 | writing proper components out and reading them back gives them unchanged; the text is empty exactly when there are none, and it is never absolute |
| PosixPath.NormPathComps | code_researcher_agent/tools.py:34 | `normpath` keeps a path absolute or relative, and its result's components are those of the normalizing walk over the pieces |
| PosixPath.WalkNames | code_researcher_agent/tools.py:34 | during normalization, plain names are appended to what was collected |
| PosixPath.CancelPair | code_researcher_agent/tools.py:28-34 | normalization cancels a name followed by "..", whatever came before |
| PosixPath.NameUpName | code_researcher_agent/tools.py:28-34 | `normpath("d/../f")` is `"f"` for any names d and f |
| PosixPath.Step | code_researcher_agent/tools.py:34 | one step of `normpath`'s loop: "" and "." are dropped; ".." removes the last kept name, is kept in a relative path when nothing can be cancelled and is dropped at an absolute root; any other piece is kept |
| PosixPath.Walk | code_researcher_agent/tools.py:34 | `normpath`'s loop: `Step` applied to each piece in order, starting from what was collected |
| PosixPath.NormPath | code_researcher_agent/tools.py:34 | `os.path.normpath`: "." for ""; the prefix "//" when the path starts with exactly two separators, "/" for other absolute paths, "" otherwise; then the walked pieces joined with "/"; "." when that is empty |
| PosixPath.Join | code_researcher_agent/tools.py:34 | `os.path.join(a, b)`: an absolute b replaces a; otherwise b follows a, with one "/" between them unless a is empty or ends in "/" |
| PosixPath.CommonPath | code_researcher_agent/tools.py:37 | `os.path.commonpath([a, b])`: ValueError "Can't mix absolute and relative paths" when exactly one is absolute; otherwise "/" for absolute paths followed by the common prefix of their components joined with "/" |
| PosixPath.AbsPath | code_researcher_agent/indexer.py:43 | `os.path.abspath(p)`: the normalization of p, or of p joined onto the working directory when p is relative |
| PosixPath.JoinAll | code_researcher_agent/indexer.py:43 | `os.path.join(*parts)`: the parts joined from the left |
| PosixPath.RelPath | code_researcher_agent/indexer.py:43 | `os.path.relpath(path, start)`: the non-empty pieces of both absolute paths, one ".." for each piece of start past their common prefix, then the rest of path; "." when nothing is left |
| PosixPath.WalkRoot | code_researcher_agent/indexer.py:35 | the root `os.walk(top)` yields for the directory reached through `dirs`: each name joined onto the root above it |
| PosixPath.Below | code_researcher_agent/tools.py:34 | the components of a relative request normalized below the canonical root: the root climbed by the request's leading "..", then its remaining names |
| PosixPath.JoinKeepsKind | code_researcher_agent/tools.py:34 | joining a relative path onto another path keeps the left side's kind (absolute or relative) |
| PosixPath.WalkJoin | code_researcher_agent/tools.py:34 | normalizing `join(a, y)` for a relative y walks a's pieces, then y's |
| PosixPath.ContainmentIff | code_researcher_agent/tools.py:37 | `commonpath([a, b]) == b` holds exactly when a and b are of one kind, b is written canonically, and b's components are an initial segment of a's (a component prefix, not a string prefix) |
| PosixPath.AbsPathComps | code_researcher_agent/indexer.py:43 | for an absolute working directory, the non-empty pieces of `abspath(p)` are p's normalized absolute components |
| PosixPath.RelPathOfWalkedFile | code_researcher_agent/indexer.py:35-43 | for an absolute working directory, the file `name` in the directory that `os.walk(top)` reaches through `dirs` has the relative path `"/".join(dirs + [name])`, whatever `top` is |
| PosixPath.AbsoluteComps | code_researcher_agent/tools.py:35 | a canonical absolute path is absolute, canonical, and has exactly the components it was written from |
| PosixPath.UpsOfDotsAndNames | code_researcher_agent/tools.py:34-38 | k ".." components followed by names start with exactly k climbs |
| PosixPath.WalkUnderRoot | code_researcher_agent/tools.py:34 | normalizing pieces below an absolute root matches normalizing them as a relative path: the root is climbed by the leading ".." that survive, and the names that follow are appended |
| PosixPath.CandidateBelowRoot | code_researcher_agent/tools.py:34 | the normalized join of a canonical root and a relative request is absolute; its components are the root climbed by the request's leading "..", then the request's remaining names |
| PosixPath.NormalizedBelowRoot | code_researcher_agent/tools.py:34 | that normalized join is exactly `Absolute(Below(r, q))`, the canonical path of those components |
| Indexer.Admitted | code_researcher_agent/indexer.py:37-38 | a file name is admitted exactly when it ends with at least one of the allowed extensions |
| Indexer.TagAll | code_researcher_agent/indexer.py:41-44 | each loaded document is kept, in order, with its content unchanged and its "source" metadata set and the rest of its metadata unchanged |
| Indexer.Snippet | code_researcher_agent/indexer.py:77 | a result is written as its "source", ":\n" and its content and nothing else (the length is the sum of the three); a result without "source" gets an empty prefix |
| Indexer.Snippets | code_researcher_agent/indexer.py:75-78 | one snippet per result, in result order |
| Indexer.Format | code_researcher_agent/indexer.py:79 | no results give ""; one result gives its snippet alone |
| Indexer.Tag | code_researcher_agent/indexer.py:43 | `doc.metadata["source"] = source`: the document with its "source" metadata set and nothing else changed |
| Indexer.NotFoundMessage | code_researcher_agent/indexer.py:62 | the text of the FileNotFoundError raised for a missing persistence directory |
| Indexer.LoadFailureMessage | code_researcher_agent/indexer.py:67-69 | the text of the IndexNotReadyError, naming the persistence directory and the original error |
| Indexer.Answer | code_researcher_agent/indexer.py:74-79 | the exception the similarity search raised, or the formatted results |
| Indexer.FormatAppend | code_researcher_agent/indexer.py:75-79 | the text for two runs of results is the two texts with one "\n---\n" between them |
| Indexer.FormatAt | code_researcher_agent/indexer.py:75-79 | each result's snippet stands in the text after the text of the results before it and one delimiter, and before one delimiter and the text of the results after it |
| Indexer.CodeIndexer.constructor | code_researcher_agent/indexer.py:17-26 | the code and persistence directories are kept (the latter defaults to ".chroma_index"); no extensions given means exactly [".py", ".md", ".txt"], a given list is kept; there is no store |
| Indexer.CodeIndexer.FilePath | code_researcher_agent/indexer.py:39 | the path of a walked file is never empty, so `relpath` accepts it |
| Indexer.CodeIndexer.FileDocuments | code_researcher_agent/indexer.py:37-44 | the documents `build` collects from one file: none when its name is not admitted, otherwise what the loader gives for its walked path, each tagged with that path relative to the code directory |
| Indexer.CodeIndexer.DirDocuments | code_researcher_agent/indexer.py:36-44 | the documents collected from a directory's files, file after file |
| Indexer.CodeIndexer.WalkDocuments | code_researcher_agent/indexer.py:35-44 | the documents collected from the whole walk, directory after directory |
| Indexer.CodeIndexer.FileDocumentsSource | code_researcher_agent/indexer.py:39-44 | for an absolute working directory, the documents of an admitted file are its loaded documents tagged with the file's walked path below the code directory; an unadmitted file gives none |
| Indexer.CodeIndexer.FileProvenance | code_researcher_agent/indexer.py:36-44 | every document collected from a file comes from the loader's output for that admitted file and is tagged with its relative path |
| Indexer.CodeIndexer.DirProvenance | code_researcher_agent/indexer.py:36-44 | every document collected from a directory comes, tagged that way, from one of its admitted files |
| Indexer.CodeIndexer.WalkProvenance | code_researcher_agent/indexer.py:35-44 | every document `build` collects is one the loader gave for an admitted file of the walk, with "source" equal to that file's path relative to the code directory |
| Indexer.CodeIndexer.FileDocumentsEmpty | code_researcher_agent/indexer.py:37-44 | a file contributes nothing exactly when it is not admitted or it loads to nothing |
| Indexer.CodeIndexer.DirDocumentsEmpty | code_researcher_agent/indexer.py:36-44 | a directory contributes nothing exactly when each of its admitted files loads to nothing |
| Indexer.CodeIndexer.WalkDocumentsEmpty | code_researcher_agent/indexer.py:34-46 | `build` collects no documents exactly when every admitted file of the walk loads to nothing, in particular when no file is admitted |
| Indexer.CodeIndexer.CollectFile | code_researcher_agent/indexer.py:37-44 | the loop body for one file name adds exactly that file's specified documents |
| Indexer.CodeIndexer.CollectDirectory | code_researcher_agent/indexer.py:36-44 | the loop over a directory's files adds exactly that directory's specified documents, file by file |
| Indexer.CodeIndexer.Build | code_researcher_agent/indexer.py:28-52 | with no documents it fails with RuntimeError "No documents found…" and with no chunks with RuntimeError "No processable content…", both times keeping the store; if creating the store raises, that exception propagates and the store is kept; otherwise the store becomes the one built from the chunks of the walk's documents at the persistence directory, and the result is that of persisting it, so a failing `persist` raises after the store has changed |
| Indexer.CodeIndexer.Search | code_researcher_agent/indexer.py:54-79 | a held store is used and kept; with no store, a missing persistence directory or a load failure raises IndexNotReadyError with the message `search` builds (indexer.py:66-69), naming the cause, and leaves no store; a successful load is kept, even when the similarity search then raises; the answer is the search's exception or the formatted results |
| Tools.Candidate | code_researcher_agent/tools.py:34 | the request joined onto the code directory, then normalized |
| Tools.Contained | code_researcher_agent/tools.py:37 | the resolved directory is written canonically and its components are an initial segment of the resolved request's |
| Tools.NoLinks | code_researcher_agent/tools.py:35-36 | `os.path.realpath` on a file system without symbolic links, for normalized paths only: an absolute path becomes `Absolute` of its components, which folds the "//" that `normpath` keeps into "/"; a relative path is returned as it is, not resolved against the working directory |
| Tools.ReadOutcome | code_researcher_agent/tools.py:34-42 | resolve the directory and the candidate; ValueError "Can't mix…" when exactly one is absolute; the traversal ValueError when the candidate does not lie inside; otherwise reading the resolved file |
| Tools.NoLinksCanonical | code_researcher_agent/tools.py:35-36 | the no-link resolver keeps an absolute path's components, gives a canonical absolute path, and leaves a canonical absolute path as it is |
| Tools.ReadAt | code_researcher_agent/tools.py:39-42 | the read succeeds exactly when the resolved path is a regular file holding valid UTF-8, and then returns that text exactly; a path that is not a regular file raises FileNotFoundError with the caller's original path |
| Tools.ReadConfined | code_researcher_agent/tools.py:34-42 | for every resolver, a read succeeds exactly when the resolved request and resolved directory are of one kind, the request resolves inside the directory by components, and there is a readable regular file there |
| Tools.RejectionIgnoresFiles | code_researcher_agent/tools.py:37-40 | containment is checked before existence: a request resolving outside the directory raises ValueError whatever the file system holds |
| Tools.RelativeRequest | code_researcher_agent/tools.py:34-42 | without symbolic links, a relative request is read exactly when the components it normalizes to below the canonical root begin with the root's components, and it then reads the file with those components |
| Tools.DescendingRequest | code_researcher_agent/tools.py:34-42 | a relative request whose normalization starts with no ".." reads the file at the root followed by its names |
| Tools.ClimbingRequest | code_researcher_agent/tools.py:34-38 | a request made only of climbs (`..`, `../..`) above a non-empty root raises ValueError |
| Tools.ClimbOutRefused | code_researcher_agent/tools.py:34-38 | k ".." with k at least the root's depth, then a path not inside the root, raises ValueError |
| Tools.SiblingRequest | code_researcher_agent/tools.py:37-38 | climbing out of `parent/dir` into a sibling with another name raises ValueError, even when the sibling's name starts with dir's (root `/base`, request `../base2/x`) |
| Tools.AbsoluteRequest | code_researcher_agent/tools.py:34-42 | without symbolic links, an absolute request replaces the directory; it is read exactly when the components of its normalization begin with the root's, and it then reads the file at the canonical path of those components |
| Tools.ExtraSlashRequest | code_researcher_agent/tools.py:34-42 | without symbolic links, one more leading separator (`//base/f` for `/base/f`) changes nothing: the read succeeds exactly when the other does, with the same text |
| Tools.SlashWalk | code_researcher_agent/tools.py:34 | a leading separator more leaves an absolute path's normalizing walk unchanged |
| Tools.AbsoluteReadBack | code_researcher_agent/tools.py:34-42 | a file inside the root is read through its absolute path, with one leading separator or with two |
| Tools.ReadBack | code_researcher_agent/tools.py:34-42 | round trip: asking for the relative path of a file below the root returns its stored contents |
| Tools.CandidateOfNames | code_researcher_agent/tools.py:34 | names joined onto a canonical root normalize to the root's canonical path followed by those names |
| Tools.PasswdRefused | code_researcher_agent/tools.py:34-38 | `"../../etc/passwd"` below `"/base"` raises ValueError |
| Tools.ResolvedOutsideRefused | code_researcher_agent/tools.py:35-38 | a file named inside the directory that the resolver maps outside it raises ValueError: the check is on resolved paths |
| Tools.LinkOutRefused | code_researcher_agent/tools.py:35-38 | a link `/base/link` to `/etc/passwd` cannot be read through `link` |
| Tools.CodeResearchTools.constructor | code_researcher_agent/tools.py:15-17 | the tools hold the indexer they are given |
| Tools.CodeResearchTools.SearchCode | code_researcher_agent/tools.py:20-22 | `search_code` is the indexer's search with four results, with the same store changes and errors, including a failing similarity search |
| Tools.CodeResearchTools.ReadFile | code_researcher_agent/tools.py:25-42 | the `commonpath`-based steps of `read_file` give exactly `ReadOutcome`: the kind-mismatch ValueError of `commonpath`, the traversal ValueError, FileNotFoundError(path), a decode error, or the file's text |

## Left out

- OpenAI embeddings, `Chroma.from_documents`, `persist` and the similarity ranking: network calls and an opaque store. The store is a value holding the chunks and the persistence directory. Whether creating or persisting it raises, and which exception, comes from function parameters, as do the search results or the search's exception. A library exception class other than the ones the core itself raises is represented as `Other(kind, message)`, by its class name and message. No bound on the number of results is claimed.
- `RecursiveCharacterTextSplitter`: it is a function parameter, and no chunk size or overlap bound is claimed for it.
- `os.walk`: the walk is a given list of steps. Its enumeration order, errors and symbolic-link handling are not modelled.
- `TextLoader`: it is a function from a path to the documents it yields. Its decoding errors are not modelled.
- `read_file`'s file open: in the file map, each regular file holds the text that `open(..., "r", encoding="utf-8").read()` gives (universal newlines included), or no text when its bytes are not UTF-8. Other I/O errors, such as permissions, are not modelled.
- `os.path.realpath`: it is an arbitrary resolver. Its real symbolic-link semantics, and the guarantee that its result is normalized and absolute, are not modelled. So `ReadOutcome` also covers resolvers that return relative or non-canonical paths. `NoLinks` stands for it only on normalized paths: it does not resolve a relative path against the working directory.
- `os.path.abspath` and `relpath`: the current working directory is a parameter. The relative-path lemmas assume it is absolute, as `os.getcwd()` returns.
- The second `if self.store is None` check in `search` (indexer.py:71-72): it cannot be reached after the load block, and the model has no branch for it.
- `raise ... from e`: exception chaining is not modelled. The cause appears only as text in the IndexNotReadyError message.
- Skipping happens before loading: the loader is a pure function parameter, so the model does not show that an unadmitted file is never opened. It only shows that such a file contributes no documents.
- `@function_tool` registration, `researcher.py` (command line and agent runner) and the package `__init__.py`: these are wiring with no logic of their own. `common.py` is not part of this model; `IndexNotReadyError` is one of the modelled exceptions.
