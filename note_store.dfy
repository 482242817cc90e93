/** The stores the core importer reads from and writes to
    (`ExportSource` and `ImportTarget`, packages/core/src/io.ts), in the
    in-memory form of the importer's tests
    (packages/core/__tests__/importer.test.ts): the export is a pair of maps,
    the vault a map of files in insertion order plus a set of folders. */
module NoteStore {
  import opened Wrappers
  import opened Strings

  type String = seq<char>

  datatype FileEntry = TextFile(content: String) | BinaryFile(data: seq<bv8>)

  /** An entry of a directory listing (`DirectoryEntry`). */
  datatype DirectoryEntry = DirectoryEntry(name: String, path: String, isDirectory: bool, isFile: bool)

  /** The export being imported: text and binary files by path, and the
      listing of each directory. */
  datatype ExportSource = ExportSource(texts: map<String, String>, binaries: map<String, seq<bv8>>,
                                       listings: map<String, seq<DirectoryEntry>>) {
    /** `listDir`: the entries of `path`; a directory without a listing has
        none. */
    function ListDir(path: String): (r: seq<DirectoryEntry>)
      ensures path in listings ==> r == listings[path]
      ensures path !in listings ==> r == []
    {
      if path in listings then listings[path] else []
    }

    /** `readText`: the text at `path`, or the error "Missing text: path". */
    function ReadText(path: String): (r: Result<String>)
      ensures r.Success? <==> path in texts
      ensures r.Success? ==> r.value == texts[path]
      ensures r.Failure? ==> r.error == "Missing text: " + path
    {
      if path in texts then Success(texts[path]) else Failure("Missing text: " + path)
    }

    /** `readBinary`: the bytes at `path`, or the error "Missing binary: path". */
    function ReadBinary(path: String): (r: Result<seq<bv8>>)
      ensures r.Success? <==> path in binaries
      ensures r.Success? ==> r.value == binaries[path]
      ensures r.Failure? ==> r.error == "Missing binary: " + path
    {
      if path in binaries then Success(binaries[path]) else Failure("Missing binary: " + path)
    }
  }

  /** The paths among `paths` that end in `.md`, in order. */
  function MarkdownPaths(paths: seq<String>): (r: seq<String>)
    ensures forall p :: p in r <==> p in paths && EndsWith(p, ".md")
    ensures |r| <= |paths|
  {
    if paths == [] then []
    else
      var rest := MarkdownPaths(paths[1..]);
      assert forall p :: p in paths <==> p == paths[0] || p in paths[1..];
      if EndsWith(paths[0], ".md") then [paths[0]] + rest else rest
  }

  /** Listing a concatenation lists each part in turn: the Markdown paths
      keep the order they have in `paths`. */
  lemma {:induction false} MarkdownPathsAppend(a: seq<String>, b: seq<String>)
    ensures MarkdownPaths(a + b) == MarkdownPaths(a) + MarkdownPaths(b)
    decreases |a|
  {
    if a != [] {
      assert (a + b)[1..] == a[1..] + b;
      MarkdownPathsAppend(a[1..], b);
    } else {
      assert a + b == b;
    }
  }

  /** A single path is listed exactly when it is a Markdown path. */
  lemma MarkdownPathsSingle(p: String)
    ensures MarkdownPaths([p]) == if EndsWith(p, ".md") then [p] else []
  {
    assert [p][1..] == [];
  }

  /** The text of the file at `path` in `files`; a missing or binary file is
      the error "Missing text: path". */
  function TextAt(files: map<String, FileEntry>, path: String): (r: Result<String>)
    ensures r.Success? <==> path in files && files[path].TextFile?
    ensures r.Success? ==> r.value == files[path].content
    ensures r.Failure? ==> r.error == "Missing text: " + path
  {
    if path in files && files[path].TextFile? then Success(files[path].content)
    else Failure("Missing text: " + path)
  }

  /** The vault: files keyed by path, with the order in which their paths
      were first written, and the set of created folders. */
  class ImportTarget {
    var files: map<String, FileEntry>
    var order: seq<String>
    var folders: set<String>

    /** `order` lists each file path exactly once. */
    ghost predicate Valid()
      reads this
    {
      && (forall p :: p in order <==> p in files)
      && (forall i, j :: 0 <= i < j < |order| ==> order[i] != order[j])
    }

    constructor()
      ensures files == map[] && order == [] && folders == {}
      ensures Valid()
    {
      files := map[];
      order := [];
      folders := {};
    }

    /** `exists`: a file or a folder is at `path`. */
    predicate Exists(path: String)
      reads this
    {
      path in files || path in folders
    }

    /** `listMarkdownFiles`: the paths ending in `.md`, in the order they
        were first written. */
    function ListMarkdownFiles(): (r: seq<String>)
      reads this
      requires Valid()
      ensures forall p :: p in r <==> p in files && EndsWith(p, ".md")
    {
      MarkdownPaths(order)
    }

    /** `readText`. */
    function ReadText(path: String): (r: Result<String>)
      reads this
      ensures r == TextAt(files, path)
    {
      TextAt(files, path)
    }

    /** `writeText` and `writeBinary`: a new path goes to the end of the
        order, a rewritten one keeps its place. */
    method Write(path: String, entry: FileEntry)
      requires Valid()
      modifies this
      ensures Valid()
      ensures files == old(files)[path := entry]
      ensures order == if path in old(files) then old(order) else old(order) + [path]
      ensures folders == old(folders)
    {
      if path !in files {
        order := order + [path];
      }
      files := files[path := entry];
    }

    /** `createFolder`. */
    method CreateFolder(path: String)
      modifies this
      ensures folders == old(folders) + {path}
      ensures files == old(files) && order == old(order)
    {
      folders := folders + {path};
    }
  }
}
