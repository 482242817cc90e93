/** The ChatGPT export importer (packages/chatgpt/src/importer.ts): it reads
    `conversations.json`, indexes the files of the export directory by a
    depth-bounded walk over its listings, resolves each attachment id to the
    first indexed file whose name carries it, parses the conversations and
    hands the records to the core importer.

    `JSON.parse` is a given function (`decode`); the export path API's `join`
    is the test double's, as for the vault. */
module ChatGptImport {
  import opened Wrappers
  import opened Strings
  import opened Conversation
  import opened NoteStore
  import VaultPath
  import ChatGptParser
  import CoreImporter

  const ConversationsFile: String := "conversations.json"
  const DefaultScanDepth: int := 6
  const SkippedName: String := "node_modules"
  const ZoneIdentifierSuffix: String := ":Zone.Identifier"
  const EmptyExportDirError: String := "Export directory is empty"
  const NotAnArrayError: String := "conversations.json is not an array"

  // ---------------------------------------------------------------------
  // The attachment index

  /** An indexed file (`AttachmentIndexEntry`). */
  datatype IndexEntry = IndexEntry(name: String, path: String)

  /** A directory waiting on the stack, with its depth below the export
      directory. */
  datatype Pending = Pending(dir: String, depth: int)

  /** A listing entry that is indexed: a file, not named `node_modules`,
      whose name does not end in `:Zone.Identifier`. */
  predicate Indexed(e: DirectoryEntry) {
    e.name != SkippedName && !e.isDirectory && e.isFile && !EndsWith(e.name, ZoneIdentifierSuffix)
  }

  /** A listing entry that is walked into: a directory not named `node_modules`. */
  predicate Descended(e: DirectoryEntry) {
    e.name != SkippedName && e.isDirectory
  }

  /** The indexed files of a listing, in listing order. */
  function FilesOf(entries: seq<DirectoryEntry>): (r: seq<IndexEntry>)
    ensures |r| <= |entries|
  {
    if entries == [] then []
    else
      var e := entries[|entries| - 1];
      FilesOf(entries[..|entries| - 1]) + (if Indexed(e) then [IndexEntry(e.name, e.path)] else [])
  }

  /** The subdirectories of a listing, in listing order. */
  function SubdirsOf(entries: seq<DirectoryEntry>): (r: seq<String>)
    ensures |r| <= |entries|
  {
    if entries == [] then []
    else
      var e := entries[|entries| - 1];
      SubdirsOf(entries[..|entries| - 1]) + (if Descended(e) then [e.path] else [])
  }

  /** The index of the directory `dir` at `depth`: nothing deeper than
      `maxDepth`; otherwise the directory's own files, then the indexes of
      its subdirectories, the last one first, as the stack pops them. */
  function Index(source: ExportSource, dir: String, depth: int, maxDepth: int): seq<IndexEntry>
    decreases maxDepth - depth + 1, 0
  {
    if depth > maxDepth then []
    else
      var entries := source.ListDir(dir);
      FilesOf(entries) + Subtrees(source, SubdirsOf(entries), depth + 1, maxDepth)
  }

  /** The indexes of the directories `dirs` at `depth`, the last one first. */
  function Subtrees(source: ExportSource, dirs: seq<String>, depth: int, maxDepth: int): seq<IndexEntry>
    decreases maxDepth - depth + 1, |dirs| + 1
  {
    if dirs == [] || depth > maxDepth then []
    else Index(source, dirs[|dirs| - 1], depth, maxDepth) + Subtrees(source, dirs[..|dirs| - 1], depth, maxDepth)
  }

  /** The number of stack items a directory's walk pops, itself included. */
  ghost function Visits(source: ExportSource, dir: String, depth: int, maxDepth: int): nat
    decreases maxDepth - depth + 1, 0
  {
    if depth > maxDepth then 1
    else 1 + SubtreeVisits(source, SubdirsOf(source.ListDir(dir)), depth + 1, maxDepth)
  }

  ghost function SubtreeVisits(source: ExportSource, dirs: seq<String>, depth: int, maxDepth: int): nat
    decreases maxDepth - depth + 1, |dirs| + 1
  {
    if dirs == [] then 0
    else if depth > maxDepth then |dirs|
    else Visits(source, dirs[|dirs| - 1], depth, maxDepth) + SubtreeVisits(source, dirs[..|dirs| - 1], depth, maxDepth)
  }

  /** The stack items for the subdirectories `dirs` at `depth`, in push order. */
  function Pushes(dirs: seq<String>, depth: int): (r: seq<Pending>)
    ensures |r| == |dirs|
    ensures forall k :: 0 <= k < |r| ==> r[k] == Pending(dirs[k], depth)
  {
    seq(|dirs|, k requires 0 <= k < |dirs| => Pending(dirs[k], depth))
  }

  /** What the walk still adds for a stack, its top popped first. */
  function StackIndex(source: ExportSource, stack: seq<Pending>, maxDepth: int): seq<IndexEntry> {
    if stack == [] then []
    else
      var top := stack[|stack| - 1];
      Index(source, top.dir, top.depth, maxDepth) + StackIndex(source, stack[..|stack| - 1], maxDepth)
  }

  ghost function StackVisits(source: ExportSource, stack: seq<Pending>, maxDepth: int): nat {
    if stack == [] then 0
    else
      var top := stack[|stack| - 1];
      Visits(source, top.dir, top.depth, maxDepth) + StackVisits(source, stack[..|stack| - 1], maxDepth)
  }

  lemma StackSnoc(source: ExportSource, stack: seq<Pending>, p: Pending, maxDepth: int)
    ensures StackIndex(source, stack + [p], maxDepth) == Index(source, p.dir, p.depth, maxDepth) + StackIndex(source, stack, maxDepth)
    ensures StackVisits(source, stack + [p], maxDepth) == Visits(source, p.dir, p.depth, maxDepth) + StackVisits(source, stack, maxDepth)
  {
    assert (stack + [p])[..|stack|] == stack;
  }

  lemma SubtreesSnoc(source: ExportSource, dirs: seq<String>, d: String, depth: int, maxDepth: int)
    requires depth <= maxDepth
    ensures Subtrees(source, dirs + [d], depth, maxDepth) == Index(source, d, depth, maxDepth) + Subtrees(source, dirs, depth, maxDepth)
    ensures SubtreeVisits(source, dirs + [d], depth, maxDepth) ==
              Visits(source, d, depth, maxDepth) + SubtreeVisits(source, dirs, depth, maxDepth)
  {
    assert (dirs + [d])[..|dirs|] == dirs;
  }

  /** Pushing subdirectories puts their indexes, last one first, in front
      of what the stack already held. */
  lemma {:induction false} StackIndexPushes(source: ExportSource, stack: seq<Pending>, dirs: seq<String>,
                                            depth: int, maxDepth: int)
    ensures StackIndex(source, stack + Pushes(dirs, depth), maxDepth) ==
              Subtrees(source, dirs, depth, maxDepth) + StackIndex(source, stack, maxDepth)
    decreases |dirs|
  {
    if dirs == [] {
      assert stack + Pushes(dirs, depth) == stack;
    } else {
      var init := dirs[..|dirs| - 1];
      var last := dirs[|dirs| - 1];
      assert dirs == init + [last];
      StackIndexPushes(source, stack, init, depth, maxDepth);
      StackIndexPushStep(source, stack, init, last, depth, maxDepth);
    }
  }

  lemma StackIndexPushStep(source: ExportSource, stack: seq<Pending>, init: seq<String>, last: String,
                           depth: int, maxDepth: int)
    requires StackIndex(source, stack + Pushes(init, depth), maxDepth) ==
               Subtrees(source, init, depth, maxDepth) + StackIndex(source, stack, maxDepth)
    ensures StackIndex(source, stack + Pushes(init + [last], depth), maxDepth) ==
              Subtrees(source, init + [last], depth, maxDepth) + StackIndex(source, stack, maxDepth)
  {
    PushesSnoc(init, last, depth);
    assert stack + Pushes(init + [last], depth) == (stack + Pushes(init, depth)) + [Pending(last, depth)];
    StackSnoc(source, stack + Pushes(init, depth), Pending(last, depth), maxDepth);
    var rest := StackIndex(source, stack, maxDepth);
    var below := Subtrees(source, init, depth, maxDepth);
    if depth > maxDepth {
      SubtreesBeyondDepth(source, init + [last], depth, maxDepth);
      SubtreesBeyondDepth(source, init, depth, maxDepth);
      IndexBeyondDepth(source, last, depth, maxDepth);
    } else {
      SubtreesSnoc(source, init, last, depth, maxDepth);
      ConcatAssoc(Index(source, last, depth, maxDepth), below, rest);
    }
  }

  lemma ConcatAssoc<T>(a: seq<T>, b: seq<T>, c: seq<T>)
    ensures a + (b + c) == (a + b) + c
  {
  }

  /** The same for the number of items the walk pops. */
  lemma {:induction false} StackVisitsPushes(source: ExportSource, stack: seq<Pending>, dirs: seq<String>,
                                             depth: int, maxDepth: int)
    ensures StackVisits(source, stack + Pushes(dirs, depth), maxDepth) ==
              SubtreeVisits(source, dirs, depth, maxDepth) + StackVisits(source, stack, maxDepth)
    decreases |dirs|
  {
    if dirs == [] {
      assert stack + Pushes(dirs, depth) == stack;
    } else {
      var init := dirs[..|dirs| - 1];
      var last := dirs[|dirs| - 1];
      assert dirs == init + [last];
      StackVisitsPushes(source, stack, init, depth, maxDepth);
      PushesSnoc(init, last, depth);
      assert stack + Pushes(dirs, depth) == (stack + Pushes(init, depth)) + [Pending(last, depth)];
      StackSnoc(source, stack + Pushes(init, depth), Pending(last, depth), maxDepth);
      if depth > maxDepth {
        SubtreesBeyondDepth(source, dirs, depth, maxDepth);
        SubtreesBeyondDepth(source, init, depth, maxDepth);
        IndexBeyondDepth(source, last, depth, maxDepth);
      } else {
        SubtreesSnoc(source, init, last, depth, maxDepth);
      }
    }
  }

  lemma {:induction false} SubtreesBeyondDepth(source: ExportSource, dirs: seq<String>, depth: int, maxDepth: int)
    requires depth > maxDepth
    ensures Subtrees(source, dirs, depth, maxDepth) == []
    ensures SubtreeVisits(source, dirs, depth, maxDepth) == |dirs|
  {
  }

  lemma IndexBeyondDepth(source: ExportSource, dir: String, depth: int, maxDepth: int)
    requires depth > maxDepth
    ensures Index(source, dir, depth, maxDepth) == []
    ensures Visits(source, dir, depth, maxDepth) == 1
  {
  }

  /** The loop invariant of the walk over one listing after `j` entries. */
  lemma ListingStep(entries: seq<DirectoryEntry>, j: nat)
    requires j < |entries|
    ensures FilesOf(entries[..j + 1]) ==
              FilesOf(entries[..j]) + (if Indexed(entries[j]) then [IndexEntry(entries[j].name, entries[j].path)] else [])
    ensures SubdirsOf(entries[..j + 1]) == SubdirsOf(entries[..j]) + (if Descended(entries[j]) then [entries[j].path] else [])
  {
    assert entries[..j + 1][..j] == entries[..j];
  }

  lemma PushesSnoc(dirs: seq<String>, d: String, depth: int)
    ensures Pushes(dirs + [d], depth) == Pushes(dirs, depth) + [Pending(d, depth)]
  {
  }

  /** The pass of `buildAttachmentIndex` over the listing of a directory
      at depth `depth - 1`: its subdirectories are pushed at `depth` and its
      indexed files appended, both in listing order. */
  method WalkListing(files: seq<IndexEntry>, stack: seq<Pending>, entries: seq<DirectoryEntry>, depth: int)
    returns (files': seq<IndexEntry>, stack': seq<Pending>)
    ensures files' == files + FilesOf(entries)
    ensures stack' == stack + Pushes(SubdirsOf(entries), depth)
  {
    files', stack' := files, stack;
    for j := 0 to |entries|
      invariant files' == files + FilesOf(entries[..j])
      invariant stack' == stack + Pushes(SubdirsOf(entries[..j]), depth)
    {
      var entry := entries[j];
      ListingStep(entries, j);
      PushesSnoc(SubdirsOf(entries[..j]), entry.path, depth);
      if entry.name == SkippedName {
        continue;
      }
      if entry.isDirectory {
        stack' := stack' + [Pending(entry.path, depth)];
        continue;
      }
      if !entry.isFile {
        continue;
      }
      if EndsWith(entry.name, ZoneIdentifierSuffix) {
        continue;
      }
      files' := files' + [IndexEntry(entry.name, entry.path)];
    }
    assert entries[..|entries|] == entries;
  }

  /** The loop invariant of `buildAttachmentIndex`: the files found so
      far, then what the stack still adds, make the whole index. */
  predicate Walking(source: ExportSource, exportDir: String, maxDepth: int, files: seq<IndexEntry>, stack: seq<Pending>) {
    files + StackIndex(source, stack, maxDepth) == Index(source, exportDir, 0, maxDepth)
  }

  lemma WalkStart(source: ExportSource, exportDir: String, maxDepth: int)
    ensures Walking(source, exportDir, maxDepth, [], [Pending(exportDir, 0)])
  {
    StackSnoc(source, [], Pending(exportDir, 0), maxDepth);
    assert [] + [Pending(exportDir, 0)] == [Pending(exportDir, 0)];
  }

  /** Popping a directory beyond the depth bound adds nothing. */
  lemma PopBeyond(source: ExportSource, exportDir: String, maxDepth: int, files: seq<IndexEntry>,
                  stack: seq<Pending>, current: Pending)
    requires current.depth > maxDepth
    requires Walking(source, exportDir, maxDepth, files, stack + [current])
    ensures Walking(source, exportDir, maxDepth, files, stack)
    ensures StackVisits(source, stack, maxDepth) < StackVisits(source, stack + [current], maxDepth)
  {
    StackSnoc(source, stack, current, maxDepth);
    IndexBeyondDepth(source, current.dir, current.depth, maxDepth);
  }

  /** Popping a directory within the depth bound and walking its listing
      keeps the invariant, and shrinks what the walk still pops. */
  lemma PopStep(source: ExportSource, exportDir: String, maxDepth: int, files: seq<IndexEntry>,
                stack: seq<Pending>, current: Pending)
    requires current.depth <= maxDepth
    requires Walking(source, exportDir, maxDepth, files, stack + [current])
    ensures var entries := source.ListDir(current.dir);
      var stack' := stack + Pushes(SubdirsOf(entries), current.depth + 1);
      && Walking(source, exportDir, maxDepth, files + FilesOf(entries), stack')
      && StackVisits(source, stack', maxDepth) < StackVisits(source, stack + [current], maxDepth)
  {
    var entries := source.ListDir(current.dir);
    var dirs := SubdirsOf(entries);
    StackSnoc(source, stack, current, maxDepth);
    StackIndexPushes(source, stack, dirs, current.depth + 1, maxDepth);
    StackVisitsPushes(source, stack, dirs, current.depth + 1, maxDepth);
    var rest := StackIndex(source, stack, maxDepth);
    var below := Subtrees(source, dirs, current.depth + 1, maxDepth);
    ConcatAssoc(files, FilesOf(entries), below + rest);
    ConcatAssoc(FilesOf(entries), below, rest);
  }

  /** `buildAttachmentIndex`: the walk with an explicit stack, starting from
      the export directory at depth 0, indexes exactly `Index`. */
  method BuildAttachmentIndex(source: ExportSource, exportDir: String, maxDepth: int) returns (files: seq<IndexEntry>)
    ensures files == Index(source, exportDir, 0, maxDepth)
  {
    files := [];
    var stack := [Pending(exportDir, 0)];
    WalkStart(source, exportDir, maxDepth);
    while stack != []
      invariant Walking(source, exportDir, maxDepth, files, stack)
      decreases StackVisits(source, stack, maxDepth)
    {
      ghost var popped := stack;
      var current := stack[|stack| - 1];
      stack := stack[..|stack| - 1];
      assert stack + [current] == popped;
      if current.depth > maxDepth {
        PopBeyond(source, exportDir, maxDepth, files, stack, current);
        continue;
      }
      var entries := source.ListDir(current.dir);
      PopStep(source, exportDir, maxDepth, files, stack, current);
      files, stack := WalkListing(files, stack, entries, current.depth + 1);
    }
    assert files + [] == files;
  }

  /** Every indexed entry is a file of some listing, never one named
      `node_modules` or ending in `:Zone.Identifier`. */
  predicate Admissible(e: IndexEntry) {
    e.name != SkippedName && !EndsWith(e.name, ZoneIdentifierSuffix)
  }

  lemma {:induction false} FilesOfAdmissible(entries: seq<DirectoryEntry>)
    ensures forall k :: 0 <= k < |FilesOf(entries)| ==> Admissible(FilesOf(entries)[k])
    decreases |entries|
  {
    if entries != [] {
      FilesOfAdmissible(entries[..|entries| - 1]);
    }
  }

  lemma {:induction false} IndexAdmissible(source: ExportSource, dir: String, depth: int, maxDepth: int)
    ensures forall k :: 0 <= k < |Index(source, dir, depth, maxDepth)| ==> Admissible(Index(source, dir, depth, maxDepth)[k])
    decreases maxDepth - depth + 1, 0
  {
    if depth <= maxDepth {
      var entries := source.ListDir(dir);
      FilesOfAdmissible(entries);
      SubtreesAdmissible(source, SubdirsOf(entries), depth + 1, maxDepth);
    }
  }

  lemma {:induction false} SubtreesAdmissible(source: ExportSource, dirs: seq<String>, depth: int, maxDepth: int)
    ensures forall k :: 0 <= k < |Subtrees(source, dirs, depth, maxDepth)| ==>
              Admissible(Subtrees(source, dirs, depth, maxDepth)[k])
    decreases maxDepth - depth + 1, |dirs| + 1
  {
    if dirs != [] && depth <= maxDepth {
      IndexAdmissible(source, dirs[|dirs| - 1], depth, maxDepth);
      SubtreesAdmissible(source, dirs[..|dirs| - 1], depth, maxDepth);
    }
  }

  /** With depth 0 only the export directory itself is listed: a file in a
      subdirectory is never indexed. */
  lemma ZeroDepthIndexesRootOnly(source: ExportSource, exportDir: String)
    ensures Index(source, exportDir, 0, 0) == FilesOf(source.ListDir(exportDir))
  {
    var dirs := SubdirsOf(source.ListDir(exportDir));
    SubtreesBeyondDepth(source, dirs, 1, 0);
    assert FilesOf(source.ListDir(exportDir)) + [] == FilesOf(source.ListDir(exportDir));
  }

  // ---------------------------------------------------------------------
  // The attachment resolver

  /** The index entry name `name` carries the attachment id `id`: it starts
      with it and goes on with nothing, `-` or `.`. */
  predicate MatchesId(name: String, id: String) {
    StartsWith(name, id) && (|name| == |id| || name[|id|] == '-' || name[|id|] == '.')
  }

  /** The path of the first entry, in index order, whose name carries `id`. */
  function FirstMatch(files: seq<IndexEntry>, id: String): Option<String> {
    if files == [] then None
    else if MatchesId(files[0].name, id) then Some(files[0].path)
    else FirstMatch(files[1..], id)
  }

  /** `FirstMatch` finds a matching entry exactly when there is one, and
      then the first. */
  lemma {:induction false} FirstMatchIsFirst(files: seq<IndexEntry>, id: String)
    ensures FirstMatch(files, id).None? <==> forall k :: 0 <= k < |files| ==> !MatchesId(files[k].name, id)
    ensures FirstMatch(files, id).Some? ==>
              exists k :: 0 <= k < |files| && MatchesId(files[k].name, id) && files[k].path == FirstMatch(files, id).value
                          && forall j :: 0 <= j < k ==> !MatchesId(files[j].name, id)
    decreases |files|
  {
    if files != [] && !MatchesId(files[0].name, id) {
      FirstMatchIsFirst(files[1..], id);
      if FirstMatch(files, id).Some? {
        var k :| 0 <= k < |files[1..]| && MatchesId(files[1..][k].name, id) && files[1..][k].path == FirstMatch(files, id).value
                 && forall j :: 0 <= j < k ==> !MatchesId(files[1..][j].name, id);
        assert files[k + 1] == files[1..][k];
        forall j | 0 <= j < k + 1
          ensures !MatchesId(files[j].name, id)
        {
          if j > 0 {
            assert files[j] == files[1..][j - 1];
          }
        }
      } else {
        forall k | 0 <= k < |files|
          ensures !MatchesId(files[k].name, id)
        {
          if k > 0 {
            assert files[k] == files[1..][k - 1];
          }
        }
      }
    } else if files != [] {
      assert MatchesId(files[0].name, id);
    }
  }

  /** The boundary rule on the example of an export file: `file-aaa`
      matches `file-aaa-photo.jpg` and `file-aaa.png`, not `file-aaab.jpg`. */
  lemma MatchesIdBoundary()
    ensures MatchesId("file-aaa-photo.jpg", "file-aaa")
    ensures MatchesId("file-aaa.png", "file-aaa")
    ensures !MatchesId("file-aaab.jpg", "file-aaa")
  {
    assert "file-aaa-photo.jpg"[..8] == "file-aaa";
    assert "file-aaa.png"[..8] == "file-aaa";
    assert "file-aaab.jpg"[8] == 'b';
  }

  /** The resolver returned by `createAttachmentResolver`: the index and the
      memo of the ids already resolved. */
  class AttachmentResolver {
    const files: seq<IndexEntry>
    var cache: map<String, Option<String>>

    /** Every memoised answer is that of a scan of the index. */
    ghost predicate Valid()
      reads this
    {
      forall id :: id in cache ==> cache[id] == FirstMatch(files, id)
    }

    constructor(files: seq<IndexEntry>)
      ensures this.files == files && cache == map[]
      ensures Valid()
    {
      this.files := files;
      cache := map[];
    }

    /** A call of the resolver: the memoised answer when there is one,
        otherwise a scan of the index in order, whose answer, found or not,
        is memoised. Either way the answer is that of an uncached scan. */
    method Resolve(attachment: ChatGptParser.ChatGptAttachment) returns (r: Option<String>)
      requires Valid()
      modifies this
      ensures Valid()
      ensures r == FirstMatch(files, attachment.id)
      ensures cache == old(cache)[attachment.id := r]
    {
      var id := attachment.id;
      if id in cache {
        r := cache[id];
        assert cache == cache[id := r];
        return;
      }
      for k := 0 to |files|
        invariant FirstMatch(files[k..], id) == FirstMatch(files, id)
      {
        assert files[k..][1..] == files[k + 1..];
        if MatchesId(files[k].name, id) {
          r := Some(files[k].path);
          cache := cache[id := r];
          return;
        }
      }
      r := None;
      cache := cache[id := r];
    }
  }

  /** Memoisation is transparent: two calls for the same id give the same
      answer, whatever was resolved in between. */
  method ResolveTwice(resolver: AttachmentResolver, a: ChatGptParser.ChatGptAttachment,
                      others: seq<ChatGptParser.ChatGptAttachment>)
    returns (first: Option<String>, second: Option<String>)
    requires resolver.Valid()
    modifies resolver
    ensures resolver.Valid()
    ensures first == second == FirstMatch(resolver.files, a.id)
  {
    first := resolver.Resolve(a);
    for k := 0 to |others|
      invariant resolver.Valid()
    {
      var _ := resolver.Resolve(others[k]);
    }
    second := resolver.Resolve(a);
  }

  // ---------------------------------------------------------------------
  // The import

  /** The options of `importChatGptExport`: those of the core importer and
      the ChatGPT ones. */
  datatype ChatGptImportOptions = ChatGptImportOptions(
    core: CoreImporter.ImportOptions,
    exportDir: String,
    includeSystemMessages: Option<bool>,
    includeHiddenMessages: Option<bool>,
    attachmentScanDepth: Option<int>)

  /** What `JSON.parse` makes of `conversations.json`. */
  datatype Decoded = Malformed(error: String) | NotAnArray | ArrayOf(conversations: seq<ChatGptParser.ChatGptConversation>)

  /** `readConversationsFile`: the conversations of `conversations.json` in
      the export directory; a missing file, malformed JSON or anything but
      an array is an error. */
  function ReadConversationsFile(exportDir: String, source: ExportSource, decode: String -> Decoded)
    : (r: Result<seq<ChatGptParser.ChatGptConversation>>)
    ensures var path := VaultPath.Join(exportDir, ConversationsFile);
      && (path !in source.texts ==> r == Failure("Missing text: " + path))
      && (path in source.texts ==>
            && (decode(source.texts[path]).NotAnArray? ==> r == Failure(NotAnArrayError))
            && (decode(source.texts[path]).Malformed? ==> r == Failure(decode(source.texts[path]).error))
            && (decode(source.texts[path]).ArrayOf? ==> r == Success(decode(source.texts[path]).conversations)))
  {
    var text :- source.ReadText(VaultPath.Join(exportDir, ConversationsFile));
    match decode(text)
    case Malformed(e) => Failure(e)
    case NotAnArray => Failure(NotAnArrayError)
    case ArrayOf(cs) => Success(cs)
  }

  /** The scan depth: the option, 6 when it is not given. */
  function ScanDepth(options: ChatGptImportOptions): (d: int)
    ensures options.attachmentScanDepth.None? ==> d == DefaultScanDepth
    ensures options.attachmentScanDepth.Some? ==> d == options.attachmentScanDepth.value
  {
    options.attachmentScanDepth.GetOr(DefaultScanDepth)
  }

  /** The parser options: the resolver answers with the first indexed file
      carrying the attachment's id, as `AttachmentResolver.Resolve` does. */
  function ParserOptions(options: ChatGptImportOptions, index: seq<IndexEntry>): ChatGptParser.ParseOptions {
    ChatGptParser.ParseOptions(options.includeSystemMessages, options.includeHiddenMessages,
                               Some((a: ChatGptParser.ChatGptAttachment) => FirstMatch(index, a.id)))
  }

  /** `importChatGptExport`: a blank export directory is an error before
      anything is read; so is a `conversations.json` that cannot be read or
      is not an array, and then nothing is written. Otherwise the index is
      built with the scan depth, the conversations parsed with the resolver
      and imported by the core importer. */
  method ImportChatGptExport(options: ChatGptImportOptions, source: ExportSource, target: ImportTarget,
                             decode: String -> Decoded, builtins: ChatGptParser.Builtins,
                             render: (String, ConversationRecord) -> String)
    returns (r: Result<CoreImporter.ImportResult>, index: seq<IndexEntry>, records: seq<ConversationRecord>)
    requires target.Valid()
    requires forall text :: decode(text).ArrayOf? ==>
               forall i :: 0 <= i < |decode(text).conversations| ==>
                 ChatGptParser.PathTerminates(decode(text).conversations[i])
    modifies target
    ensures target.Valid()
    ensures AllSpace(options.exportDir) ==> r == Failure(EmptyExportDirError) && target.files == old(target.files)
    ensures !AllSpace(options.exportDir) && ReadConversationsFile(Trim(options.exportDir), source, decode).Failure? ==>
              r == Failure(ReadConversationsFile(Trim(options.exportDir), source, decode).error)
              && target.files == old(target.files)
    ensures !AllSpace(options.exportDir) && ReadConversationsFile(Trim(options.exportDir), source, decode).Success? ==>
              var conversations := ReadConversationsFile(Trim(options.exportDir), source, decode).value;
              && index == Index(source, Trim(options.exportDir), 0, ScanDepth(options))
              && (exists from :: ChatGptParser.ParsedUpTo(conversations, |conversations|, records, from,
                                                          ParserOptions(options, index), builtins))
              && (r.Success? ==> r.value.imported + r.value.skipped + |r.value.errors| == |records|)
    ensures !options.core.overwriteOnReimport ==> CoreImporter.KeepsFiles(old(target.files), target.files)
  {
    index, records := [], [];
    var exportDir := Trim(options.exportDir);
    TrimEmptyIffBlank(options.exportDir);
    if exportDir == [] {
      return Failure(EmptyExportDirError), index, records;
    }
    var read := ReadConversationsFile(exportDir, source, decode);
    if read.Failure? {
      return Failure(read.error), index, records;
    }
    var conversations := read.value;
    index := BuildAttachmentIndex(source, exportDir, ScanDepth(options));
    ghost var from: seq<nat>;
    records, from := ChatGptParser.ParseChatGptConversations(conversations, ParserOptions(options, index), builtins);
    var result: Result<CoreImporter.ImportResult>;
    ghost var failed: seq<nat>;
    result, failed := CoreImporter.ImportConversationRecords(source, target, options.core, records, render);
    return result, index, records;
  }
}
