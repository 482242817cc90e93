/** The Obsidian plugin's importer (packages/plugin/src/importer.ts): it reads
    `conversations.json` from the file system, parses it without an
    attachment resolver, skips conversations the persisted import state
    already holds unchanged, copies attachments on the file system, writes
    notes through the vault API and records every imported conversation in
    the state.

    Two stores take part, both `ImportTarget`s: the Obsidian vault
    (`getAbstractFileByPath` is `Exists`, `create` and `modify` are `Write`)
    and the file system (`existsSync` is `Exists`, `mkdirSync` is
    `CreateFolder`, `copyFileSync` and `readFileSync` act on its files). The
    persisted state is a class whose map the import loop updates in place.
    `JSON.parse`, the template engine and the clock are parameters. */
module PluginImporter {
  import opened Wrappers
  import opened Strings
  import opened Conversation
  import opened NoteStore
  import VaultPath
  import PathUtils
  import PluginPathUtils
  import Template
  import ChatGptParser
  import ChatGptImport
  import CoreImporter

  /** `ImporterPluginSettings`. */
  datatype Settings = Settings(
    exportDirectory: String,
    notesDirectory: String,
    attachmentsDirectory: String,
    customTemplatePath: String,
    includeSystemMessages: bool,
    includeHiddenMessages: bool,
    overwriteOnReimport: bool)

  /** `ImportStateItem`: what the plugin remembers of an imported
      conversation. */
  datatype StateItem = StateItem(
    conversationId: String,
    importKey: String,
    notePath: String,
    updatedAt: Option<String>,
    importedAt: String)

  /** `ImportState`, persisted between imports: the items by import key. */
  class ImportState {
    var conversations: map<String, StateItem>

    constructor(conversations: map<String, StateItem>)
      ensures this.conversations == conversations
    {
      this.conversations := conversations;
    }
  }

  // ---------------------------------------------------------------------
  // Paths

  /** A vault path that neither starts nor ends with a slash and has no
      double slash. */
  predicate Plain(r: String) {
    r != [] && r[0] != '/' && r[|r| - 1] != '/' && VaultPath.NoDoubleSlash(r)
  }

  /** Obsidian's `normalizePath` on `/`-separated paths: slash runs
      collapsed, leading and trailing slashes dropped, and "/" for what
      is left empty. */
  function NormalizePath(p: String): (r: String)
    ensures r == "/" || Plain(r)
  {
    var d := CoreImporter.DropLeadingSlashes(VaultPath.Normalize(p));
    DropLeadingSlashesKeeps(VaultPath.Normalize(p));
    if d == [] then "/" else d
  }

  /** Dropping leading slashes from a normalised path leaves a path that
      neither starts nor ends with one and has no double slash. */
  lemma DropLeadingSlashesKeeps(n: String)
    requires VaultPath.NoDoubleSlash(n) && (n == [] || n[|n| - 1] != '/')
    ensures var d := CoreImporter.DropLeadingSlashes(n);
            d == [] || Plain(d)
  {
    var d := CoreImporter.DropLeadingSlashes(n);
    if d != [] {
      var k := |n| - |d|;
      assert d == n[k..];
      VaultPath.NoDoubleSlashSuffix(n, k);
      assert d[|d| - 1] == n[|n| - 1];
    }
  }

  /** Normalising a normalised path changes nothing. */
  lemma NormalizePathIdempotent(p: String)
    ensures NormalizePath(NormalizePath(p)) == NormalizePath(p)
  {
    var r := NormalizePath(p);
    if r == "/" {
      NormalizeOfRoot();
    } else {
      NormalizeOfPlain(r);
      assert CoreImporter.DropLeadingSlashes(r) == r;
    }
  }

  lemma NormalizeOfRoot()
    ensures VaultPath.Normalize("/") == []
  {
    assert VaultPath.CollapseSlashes("/") == "/";
  }

  lemma NormalizeOfPlain(r: String)
    requires r != [] && r[0] != '/' && r[|r| - 1] != '/' && VaultPath.NoDoubleSlash(r)
    ensures VaultPath.Normalize(r) == r
  {
    VaultPath.CollapseSlashesFixpoint(r);
  }

  /** Appending a piece that starts with no slash and has no double slash
      to any path collapses only the path. */
  lemma {:induction false} CollapseAppend(p: String, f: String)
    requires f != [] && f[0] != '/' && VaultPath.NoDoubleSlash(f)
    ensures VaultPath.CollapseSlashes(p + f) == VaultPath.CollapseSlashes(p) + f
    decreases |f|
  {
    var s := p + f;
    if p == [] {
      assert s == f;
      VaultPath.CollapseSlashesFixpoint(f);
    } else if |f| == 1 {
      assert s[..|s| - 1] == p && s[|s| - 1] == f[0];
      VaultPath.CollapseKeepsLast(s);
      assert f == [f[0]];
    } else {
      var g := f[..|f| - 1];
      VaultPath.NoDoubleSlashPrefix(f, |f| - 1);
      CollapseAppend(p, g);
      CollapseAppendLast(p, f);
    }
  }

  /** The step of `CollapseAppend`: the last character of the piece is kept. */
  lemma CollapseAppendLast(p: String, f: String)
    requires |f| > 1 && VaultPath.NoDoubleSlash(f)
    requires VaultPath.CollapseSlashes(p + f[..|f| - 1]) == VaultPath.CollapseSlashes(p) + f[..|f| - 1]
    ensures VaultPath.CollapseSlashes(p + f) == VaultPath.CollapseSlashes(p) + f
  {
    var s := p + f;
    AppendLast(p, f);
    assert !VaultPath.DoubleSlashAt(f, |f| - 1);
    assert s[|s| - 2] == f[|f| - 2] && s[|s| - 1] == f[|f| - 1];
    VaultPath.CollapseKeepsLast(s);
    AppendLast(VaultPath.CollapseSlashes(p), f);
  }

  /** Joining a collapsed folder path and a name: the name follows the
      folder after exactly one slash. */
  lemma JoinUnder(root: String, f: String)
    requires root != [] && VaultPath.NoDoubleSlash(root)
    requires f != [] && f[0] != '/' && VaultPath.NoDoubleSlash(f)
    ensures root[|root| - 1] == '/' ==> VaultPath.Join(root, f) == root + f
    ensures root[|root| - 1] != '/' ==> VaultPath.Join(root, f) == root + "/" + f
  {
    var s := root + "/";
    CollapseAppend(s, f);
    assert root + "/" + f == s + f;
    VaultPath.CollapseSlashesFixpoint(root);
    assert s[..|s| - 1] == root;
    if root[|root| - 1] == '/' {
      assert VaultPath.CollapseSlashes(s) == VaultPath.CollapseSlashes(root);
    } else {
      assert VaultPath.CollapseSlashes(s) == VaultPath.CollapseSlashes(root) + "/";
    }
  }

  /** The attachments folder on disk: the normalised setting under the
      vault's base path. */
  function AttachmentsRoot(vaultBasePath: String, attachmentsDirectory: String): (r: String)
    ensures r != [] && VaultPath.NoDoubleSlash(r)
  {
    VaultPath.Join(vaultBasePath, NormalizePath(attachmentsDirectory))
  }

  /** The file an attachment is first tried at: its file name in the root. */
  function InitialPath(root: String, a: Attachment): String
    requires a.sourcePath.Some?
  {
    VaultPath.Join(root, PluginPathUtils.BuildAttachmentFileName(a.name, a.sourcePath.value, a.id))
  }

  /** `s.slice(k)`. */
  function After(s: String, k: nat): (r: String)
    ensures k <= |s| ==> s == s[..k] + r
    ensures k > |s| ==> r == []
  {
    if k <= |s| then s[k..] else []
  }

  /** The vault path of a copied file as the source computes it: the file's
      path from one character past the root's length, under the configured
      folder. */
  function AsWrittenRelativeTarget(attachmentsDirectory: String, root: String, final: String): String {
    NormalizePath(VaultPath.Join(attachmentsDirectory, After(final, |root| + 1)))
  }

  /** Where the file's path relative to the root starts: past the root and
      the slash that follows it, which is the root's own last character
      when the root ends in one. */
  function RootLength(root: String): nat {
    if root != [] && root[|root| - 1] == '/' then |root| else |root| + 1
  }

  /** The vault path of a copied file: its path relative to the root, under
      the configured folder. */
  function RelativeTarget(attachmentsDirectory: String, root: String, final: String): String {
    NormalizePath(VaultPath.Join(attachmentsDirectory, After(final, RootLength(root))))
  }

  /** A file placed in the attachments root at its file name gets the vault
      path "attachments folder / file name", whatever the root looks like. */
  lemma VaultPathOfPlacedFile(vaultBasePath: String, attachmentsDirectory: String, fileName: String)
    requires fileName != [] && fileName[0] != '/' && VaultPath.NoDoubleSlash(fileName)
    ensures var root := AttachmentsRoot(vaultBasePath, attachmentsDirectory);
            RelativeTarget(attachmentsDirectory, root, VaultPath.Join(root, fileName))
              == NormalizePath(VaultPath.Join(attachmentsDirectory, fileName))
  {
    var root := AttachmentsRoot(vaultBasePath, attachmentsDirectory);
    PlacedAfterRoot(root, fileName);
  }

  /** Cutting the root's length off a file joined under it leaves the file
      name. */
  lemma PlacedAfterRoot(root: String, fileName: String)
    requires root != [] && VaultPath.NoDoubleSlash(root)
    requires fileName != [] && fileName[0] != '/' && VaultPath.NoDoubleSlash(fileName)
    ensures After(VaultPath.Join(root, fileName), RootLength(root)) == fileName
  {
    JoinUnder(root, fileName);
    var final := VaultPath.Join(root, fileName);
    if root[|root| - 1] == '/' {
      assert final[|root|..] == fileName;
    } else {
      assert final[|root| + 1..] == fileName;
    }
  }

  /** With no attachments folder configured, `normalizePath("")` is "/", the
      root ends in a slash, and the source's slice drops the first character
      of the file name: "img.png" copied to "/vault/img.png" is linked as
      "mg.png". The corrected slice links "img.png". */
  lemma AsWrittenDropsFirstCharacter()
    ensures var root := AttachmentsRoot("/vault", "");
            var final := VaultPath.Join(root, "img.png");
            && root == "/vault/"
            && final == root + "img.png"
            && AsWrittenRelativeTarget("", root, final) == "mg.png"
            && RelativeTarget("", root, final) == "img.png"
  {
    SampleRoot();
    var root := AttachmentsRoot("/vault", "");
    var f: String := "img.png";
    SampleNamesPlain();
    JoinUnder(root, f);
    var final := VaultPath.Join(root, f);
    DropAfterPrefix(root, f, 1);
    DropAfterPrefix(root, f, 0);
    var cut: String := "mg.png";
    PlainName(cut);
    PlainName(f);
  }

  /** With no attachments folder the root is the base path and a slash. */
  lemma SampleRoot()
    ensures AttachmentsRoot("/vault", "") == "/vault/"
  {
    assert VaultPath.Normalize("") == [];
    assert NormalizePath("") == "/";
    var s: String := "/vault//";
    assert "/vault" + "/" + "/" == s;
    var t: String := "/vault/";
    assert s[..|s| - 1] == t;
    assert VaultPath.NoDoubleSlash(t);
    VaultPath.CollapseSlashesFixpoint(t);
    assert VaultPath.CollapseSlashes(s) == t;
  }

  lemma SampleNamesPlain()
    ensures var f: String := "img.png";
            && f[0] != '/' && f[|f| - 1] != '/' && VaultPath.NoDoubleSlash(f)
            && f[1..] == "mg.png" && VaultPath.NoDoubleSlash("mg.png")
  {
    var f: String := "img.png";
    assert forall i :: 0 <= i < |f| ==> f[i] != '/';
    assert forall i :: 0 <= i < |f[1..]| ==> f[1..][i] != '/';
  }

  /** Cutting a concatenation after its first part and `k` more. */
  lemma DropAfterPrefix(root: String, f: String, k: nat)
    requires k <= |f|
    ensures After(root + f, |root| + k) == f[k..]
  {
  }

  /** A name with no slash at its start or end and no double slash is its
      own vault path under an empty folder. */
  lemma PlainName(f: String)
    requires f != [] && f[0] != '/' && f[|f| - 1] != '/' && VaultPath.NoDoubleSlash(f)
    ensures NormalizePath(VaultPath.Join("", f)) == f
  {
    VaultPath.CollapseSlashesFixpoint(f);
    assert VaultPath.Normalize(f) == f;
  }

  // ---------------------------------------------------------------------
  // The file system

  /** The error `mkdirSync` reports for a file in the way. */
  function Eexist(path: String): String {
    "EEXIST: file already exists, mkdir '" + path + "'"
  }

  /** The error `copyFileSync` reports for a missing source. */
  function Enoent(from: String, to: String): String {
    "ENOENT: no such file or directory, copyfile '" + from + "' -> '" + to + "'"
  }

  /** `mkdirSync(path, { recursive: true })`: the folder exists afterwards;
      a file at the path is the error EEXIST and changes nothing. */
  method EnsureDirectory(disk: ImportTarget, path: String) returns (error: Option<String>)
    requires disk.Valid()
    modifies disk
    ensures disk.Valid() && disk.files == old(disk.files)
    ensures path in old(disk.files) ==>
              error == Some(Eexist(path)) && disk.folders == old(disk.folders)
    ensures path !in old(disk.files) ==> error.None? && disk.folders == old(disk.folders) + {path}
  {
    if path in disk.files {
      return Some(Eexist(path));
    }
    disk.CreateFolder(path);
    return None;
  }

  /** `copyFileSync(from, to)`: the file at `from` is duplicated at `to`;
      a missing `from` is the error ENOENT and changes nothing. */
  method CopyFile(disk: ImportTarget, from: String, to: String) returns (error: Option<String>)
    requires disk.Valid()
    modifies disk
    ensures disk.Valid() && disk.folders == old(disk.folders)
    ensures from in old(disk.files) ==> error.None? && disk.files == old(disk.files)[to := old(disk.files)[from]]
    ensures from !in old(disk.files) ==>
              && error == Some(Enoent(from, to))
              && disk.files == old(disk.files)
  {
    if from !in disk.files {
      return Some(Enoent(from, to));
    }
    disk.Write(to, disk.files[from]);
    return None;
  }

  /** `readConversationsFile`: the conversations of `conversations.json` in
      the export directory; a missing file, malformed JSON or anything but
      an array is an error. */
  function ReadConversationsFile(files: map<String, FileEntry>, exportDirectory: String,
                                 decode: String -> ChatGptImport.Decoded)
    : (r: Result<seq<ChatGptParser.ChatGptConversation>>)
    ensures var path := VaultPath.Join(exportDirectory, ChatGptImport.ConversationsFile);
      && (TextAt(files, path).Failure? ==> r == Failure(TextAt(files, path).error))
      && (TextAt(files, path).Success? ==>
            var decoded := decode(files[path].content);
            && (decoded.NotAnArray? ==> r == Failure(ChatGptImport.NotAnArrayError))
            && (decoded.Malformed? ==> r == Failure(decoded.error))
            && (decoded.ArrayOf? ==> r == Success(decoded.conversations)))
  {
    var text :- TextAt(files, VaultPath.Join(exportDirectory, ChatGptImport.ConversationsFile));
    match decode(text)
    case Malformed(e) => Failure(e)
    case NotAnArray => Failure(ChatGptImport.NotAnArrayError)
    case ArrayOf(cs) => Success(cs)
  }

  /** `loadTemplate`: the default template when the custom path is blank;
      otherwise the text at the trimmed path, whose absence is an error. */
  function LoadTemplate(files: map<String, FileEntry>, settings: Settings): (r: Result<String>)
    ensures AllSpace(settings.customTemplatePath) ==> r == Success(Template.DefaultMarkdownTemplate)
    ensures !AllSpace(settings.customTemplatePath) ==>
              var path := Trim(settings.customTemplatePath);
              && path != []
              && (r.Success? <==> path in files && files[path].TextFile?)
              && (r.Success? ==> r.value == files[path].content)
  {
    TrimEmptyIffBlank(settings.customTemplatePath);
    var path := Trim(settings.customTemplatePath);
    if path == [] then Success(Template.DefaultMarkdownTemplate) else TextAt(files, path)
  }

  // ---------------------------------------------------------------------
  // Attachments

  /** `relativeLinkPath` inside the wiki link: an embed for images, a plain
      link otherwise. */
  function LinkFor(mimeType: Option<String>, vaultPath: String): String {
    if PathUtils.IsImageMimeType(mimeType) then "![[" + NormalizePath(vaultPath) + "]]"
    else "[[" + NormalizePath(vaultPath) + "]]"
  }

  /** The link of a recorded vault path names that very path. */
  lemma LinkNamesVaultPath(mimeType: Option<String>, p: String)
    ensures var v := NormalizePath(p);
            LinkFor(mimeType, v) == (if PathUtils.IsImageMimeType(mimeType) then "![[" else "[[") + v + "]]"
  {
    NormalizePathIdempotent(p);
  }

  /** The attachment with its vault path and wiki link filled in. */
  function Enrich(a: Attachment, vaultPath: String): Attachment {
    a.(vaultPath := Some(vaultPath), obsidianLink := Some(LinkFor(a.mimeType, vaultPath)))
  }

  /** How `mergeConversationAttachments` leaves one attachment, given the
      final copy map: one without a source path is untouched; any other
      carries the vault path recorded for its id and that path's link. */
  predicate AttachmentMerged(a: Attachment, b: Attachment, copied: map<String, String>) {
    if CoreImporter.Truthy(a.sourcePath) then a.id in copied && b == Enrich(a, copied[a.id])
    else b == a
  }

  predicate AttachmentsMerged(atts: seq<Attachment>, merged: seq<Attachment>, copied: map<String, String>) {
    |merged| == |atts| && forall j :: 0 <= j < |atts| ==> AttachmentMerged(atts[j], merged[j], copied)
  }

  /** Each message keeps everything but its attachments, which are merged. */
  predicate MessagesMerged(messages: seq<Message>, merged: seq<Message>, copied: map<String, String>) {
    && |merged| == |messages|
    && forall i :: 0 <= i < |messages| ==>
         merged[i] == messages[i].(attachments := merged[i].attachments)
         && AttachmentsMerged(messages[i].attachments, merged[i].attachments, copied)
  }

  /** The copy map only gains entries; a recorded one never changes. */
  predicate Grows(before: map<String, String>, after: map<String, String>) {
    forall id :: id in before ==> id in after && after[id] == before[id]
  }

  /** Every recorded vault path is non-empty and names, relative to the
      attachments folder, a path that exists on disk. */
  ghost predicate CopiesOnDisk(copied: map<String, String>, placed: map<String, String>,
                               attachmentsDirectory: String, root: String,
                               files: map<String, FileEntry>, folders: set<String>) {
    forall id :: id in copied ==>
      && copied[id] != []
      && id in placed && copied[id] == AsWrittenRelativeTarget(attachmentsDirectory, root, placed[id])
      && (placed[id] in files || placed[id] in folders)
  }

  lemma CopiesOnDiskGrow(copied: map<String, String>, placed: map<String, String>,
                         attachmentsDirectory: String, root: String,
                         files: map<String, FileEntry>, folders: set<String>,
                         files': map<String, FileEntry>, folders': set<String>)
    requires CopiesOnDisk(copied, placed, attachmentsDirectory, root, files, folders)
    requires CoreImporter.KeepsFiles(files, files') && folders <= folders'
    ensures CopiesOnDisk(copied, placed, attachmentsDirectory, root, files', folders')
  {
  }

  /** Recording the vault path of a new id whose destination exists keeps
      the copy map growing and every recorded path on disk. */
  lemma RecordCopy(copied: map<String, String>, placed: map<String, String>,
                   attachmentsDirectory: String, root: String,
                   files: map<String, FileEntry>, folders: set<String>,
                   files': map<String, FileEntry>, folders': set<String>, id: String, path: String)
    requires CopiesOnDisk(copied, placed, attachmentsDirectory, root, files, folders)
    requires CoreImporter.KeepsFiles(files, files') && folders <= folders'
    requires id !in copied || copied[id] == []
    requires path in files' || path in folders'
    ensures var v := AsWrittenRelativeTarget(attachmentsDirectory, root, path);
            && Grows(copied, copied[id := v])
            && CopiesOnDisk(copied[id := v], placed[id := path], attachmentsDirectory, root, files', folders')
  {
    var v := AsWrittenRelativeTarget(attachmentsDirectory, root, path);
    var c, p := copied[id := v], placed[id := path];
    assert v != [];
    assert id !in copied;
    GrowsByNew(copied, id, v);
    forall k | k in c
      ensures && c[k] != [] && k in p && c[k] == AsWrittenRelativeTarget(attachmentsDirectory, root, p[k])
              && (p[k] in files' || p[k] in folders')
    {
      if k != id {
        assert c[k] == copied[k] && p[k] == placed[k];
      }
    }
  }

  lemma GrowsByNew(copied: map<String, String>, id: String, v: String)
    requires id !in copied
    ensures Grows(copied, copied[id := v])
  {
  }

  /** Every file of `before` is still there with the same content. */
  ghost predicate KeepsFiles(before: map<String, FileEntry>, files: map<String, FileEntry>) {
    CoreImporter.KeepsFiles(before, files)
  }

  /** Why placing `a` fails: a file where its folder goes (EEXIST), or
      else a missing source file (ENOENT). */
  predicate PlaceError(root: String, a: Attachment, files: map<String, FileEntry>, e: String)
    requires a.sourcePath.Some?
  {
    var dir := VaultPath.Dirname(InitialPath(root, a));
    || (dir in files && e == Eexist(dir))
    || (dir !in files && a.sourcePath.value !in files && e == Enoent(a.sourcePath.value, InitialPath(root, a)))
  }

  /** One copy of `mergeConversationAttachments`: an attachment whose
      destination exists is not copied again; otherwise the destination's
      folder is made and the source file copied there. Either way the vault
      path is that of the initial destination, never a suffixed one, and no
      existing file changes. */
  method PlaceAttachment(disk: ImportTarget, attachmentsDirectory: String, root: String, a: Attachment)
    returns (r: Result<String>)
    requires disk.Valid() && CoreImporter.Truthy(a.sourcePath)
    modifies disk
    ensures disk.Valid() && old(disk.folders) <= disk.folders
    ensures KeepsFiles(old(disk.files), disk.files)
    ensures r.Failure? ==> disk.files == old(disk.files)
    ensures r.Success? ==> && r.value == AsWrittenRelativeTarget(attachmentsDirectory, root, InitialPath(root, a))
                           && disk.Exists(InitialPath(root, a))
    ensures old(disk.Exists(InitialPath(root, a))) ==> r.Success? && disk.files == old(disk.files)
    ensures !old(disk.Exists(InitialPath(root, a))) ==>
              (r.Success? <==> VaultPath.Dirname(InitialPath(root, a)) !in old(disk.files)
                               && a.sourcePath.value in old(disk.files))
    ensures !old(disk.Exists(InitialPath(root, a))) && r.Success? ==>
              disk.files == old(disk.files)[InitialPath(root, a) := old(disk.files)[a.sourcePath.value]]
    ensures r.Failure? ==> PlaceError(root, a, old(disk.files), r.error)
  {
    var fileName := PluginPathUtils.BuildAttachmentFileName(a.name, a.sourcePath.value, a.id);
    var initialAbsPath := VaultPath.Join(root, fileName);
    assert initialAbsPath == InitialPath(root, a);
    var finalAbsPath := initialAbsPath;
    if !disk.Exists(initialAbsPath) {
      var error;
      finalAbsPath, error := CopyToFreePath(disk, a.sourcePath.value, initialAbsPath);
      if error.Some? {
        return Failure(error.value);
      }
    }
    return Success(AsWrittenRelativeTarget(attachmentsDirectory, root, finalAbsPath));
  }

  /** The copy branch of `mergeConversationAttachments`, for a destination
      that is free: `ensureUniqueFilePath` keeps it as it is, its folder is
      made, and the source file is copied there. */
  method CopyToFreePath(disk: ImportTarget, from: String, initialAbsPath: String)
    returns (finalAbsPath: String, error: Option<String>)
    requires disk.Valid() && !disk.Exists(initialAbsPath)
    modifies disk
    ensures disk.Valid() && old(disk.folders) <= disk.folders
    ensures finalAbsPath == initialAbsPath
    ensures error.None? <==> VaultPath.Dirname(initialAbsPath) !in old(disk.files) && from in old(disk.files)
    ensures error.None? ==> disk.files == old(disk.files)[initialAbsPath := old(disk.files)[from]]
    ensures error.Some? ==> disk.files == old(disk.files)
    ensures KeepsFiles(old(disk.files), disk.files)
    ensures error.Some? ==> var dir := VaultPath.Dirname(initialAbsPath);
                            || (dir in old(disk.files) && error.value == Eexist(dir))
                            || (dir !in old(disk.files) && from !in old(disk.files) && error.value == Enoent(from, initialAbsPath))
  {
    finalAbsPath := CoreImporter.EnsureUniqueFilePath(disk, initialAbsPath);
    error := EnsureDirectory(disk, VaultPath.Dirname(finalAbsPath));
    if error.Some? {
      return;
    }
    error := CopyFile(disk, from, finalAbsPath);
  }

  lemma AttachmentsMergedSnoc(atts: seq<Attachment>, merged: seq<Attachment>, copied: map<String, String>, j: nat, b: Attachment)
    requires j < |atts| && AttachmentsMerged(atts[..j], merged, copied) && AttachmentMerged(atts[j], b, copied)
    ensures AttachmentsMerged(atts[..j + 1], merged + [b], copied)
  {
    assert atts[..j + 1] == atts[..j] + [atts[j]];
  }

  lemma AttachmentsMergedGrows(atts: seq<Attachment>, merged: seq<Attachment>, before: map<String, String>, after: map<String, String>)
    requires AttachmentsMerged(atts, merged, before) && Grows(before, after)
    ensures AttachmentsMerged(atts, merged, after)
  {
    forall j | 0 <= j < |atts|
      ensures AttachmentMerged(atts[j], merged[j], after)
    {
      assert AttachmentMerged(atts[j], merged[j], before);
    }
  }

  /** The two errors placing `a` can end in, whatever the disk holds. */
  predicate FailsWith(root: String, a: Attachment, e: String)
    requires a.sourcePath.Some?
  {
    e == Eexist(VaultPath.Dirname(InitialPath(root, a))) || e == Enoent(a.sourcePath.value, InitialPath(root, a))
  }

  /** An attachment with a source path whose placing cannot fail: its
      source file is on disk, and no file is, or will be copied to, where
      its folder goes. */
  predicate Placeable(root: String, a: Attachment, files: map<String, FileEntry>, dests: set<String>) {
    CoreImporter.Truthy(a.sourcePath) ==>
      && a.sourcePath.value in files
      && VaultPath.Dirname(InitialPath(root, a)) !in files
      && VaultPath.Dirname(InitialPath(root, a)) !in dests
  }

  /** Every file of `files` was in `start` or is one of `dests`. */
  ghost predicate AddsOnly(start: map<String, FileEntry>, files: map<String, FileEntry>, dests: set<String>) {
    forall p :: p in files ==> p in start || p in dests
  }

  /** An attachment that cannot be placed later could not be placed at the
      start either: files were only added, and only at `dests`. */
  lemma NotPlaceableEarlier(root: String, a: Attachment, start: map<String, FileEntry>, later: map<String, FileEntry>,
                            dests: set<String>, laterDests: set<String>)
    requires !Placeable(root, a, later, laterDests) && laterDests <= dests
    requires KeepsFiles(start, later) && AddsOnly(start, later, dests)
    ensures !Placeable(root, a, start, dests)
  {
  }

  /** One attachment of `mergeConversationAttachments`: one without a
      source path is left as it is; one whose id has no recorded vault path
      yet is placed and its vault path recorded; each gets the recorded
      vault path and its link. */
  method MergeAttachment(disk: ImportTarget, attachmentsDirectory: String, root: String, a: Attachment,
                         copied0: map<String, String>, ghost placed0: map<String, String>)
    returns (r: Result<Attachment>, copied: map<String, String>, ghost placed: map<String, String>)
    requires disk.Valid() && CopiesOnDisk(copied0, placed0, attachmentsDirectory, root, disk.files, disk.folders)
    modifies disk
    ensures disk.Valid() && old(disk.folders) <= disk.folders
    ensures KeepsFiles(old(disk.files), disk.files)
    ensures Grows(copied0, copied) && CopiesOnDisk(copied, placed, attachmentsDirectory, root, disk.files, disk.folders)
    ensures r.Success? ==> AttachmentMerged(a, r.value, copied)
    ensures AddsOnly(old(disk.files), disk.files, if CoreImporter.Truthy(a.sourcePath) then {InitialPath(root, a)} else {})
    ensures r.Failure? ==> CoreImporter.Truthy(a.sourcePath) && PlaceError(root, a, old(disk.files), r.error)
    ensures Placeable(root, a, old(disk.files), {}) ==> r.Success?
  {
    copied, placed := copied0, placed0;
    if !CoreImporter.Truthy(a.sourcePath) {
      return Success(a), copied, placed;
    }
    if a.id !in copied || copied[a.id] == [] {
      var target := PlaceAttachment(disk, attachmentsDirectory, root, a);
      if target.Failure? {
        return Failure(target.error), copied, placed;
      }
      RecordCopy(copied0, placed0, attachmentsDirectory, root, old(disk.files), old(disk.folders),
                 disk.files, disk.folders, a.id, InitialPath(root, a));
      copied := copied[a.id := target.value];
      placed := placed[a.id := InitialPath(root, a)];
    }
    return Success(Enrich(a, copied[a.id])), copied, placed;
  }

  /** The inner loop of `mergeConversationAttachments`, over one message's
      attachments, sharing the copy map. */
  method MergeMessageAttachments(disk: ImportTarget, attachmentsDirectory: String, root: String,
                                 atts: seq<Attachment>, copied0: map<String, String>, ghost placed0: map<String, String>,
                                 ghost dests: set<String>)
    returns (r: Result<seq<Attachment>>, copied: map<String, String>, ghost placed: map<String, String>)
    requires disk.Valid() && CopiesOnDisk(copied0, placed0, attachmentsDirectory, root, disk.files, disk.folders)
    requires forall j :: 0 <= j < |atts| && CoreImporter.Truthy(atts[j].sourcePath) ==> InitialPath(root, atts[j]) in dests
    modifies disk
    ensures disk.Valid() && old(disk.folders) <= disk.folders
    ensures KeepsFiles(old(disk.files), disk.files) && AddsOnly(old(disk.files), disk.files, dests)
    ensures Grows(copied0, copied) && CopiesOnDisk(copied, placed, attachmentsDirectory, root, disk.files, disk.folders)
    ensures r.Success? ==> AttachmentsMerged(atts, r.value, copied)
    ensures r.Failure? ==> exists j :: && 0 <= j < |atts| && CoreImporter.Truthy(atts[j].sourcePath)
                                      && !Placeable(root, atts[j], old(disk.files), dests) && FailsWith(root, atts[j], r.error)
    ensures (forall j :: 0 <= j < |atts| ==> Placeable(root, atts[j], old(disk.files), dests)) ==> r.Success?
  {
    copied, placed := copied0, placed0;
    var merged: seq<Attachment> := [];
    for j := 0 to |atts|
      invariant disk.Valid() && old(disk.folders) <= disk.folders
      invariant KeepsFiles(old(disk.files), disk.files) && AddsOnly(old(disk.files), disk.files, dests)
      invariant Grows(copied0, copied) && CopiesOnDisk(copied, placed, attachmentsDirectory, root, disk.files, disk.folders)
      invariant AttachmentsMerged(atts[..j], merged, copied)
    {
      ghost var filesBefore := disk.files;
      var b, after;
      b, after, placed := MergeAttachment(disk, attachmentsDirectory, root, atts[j], copied, placed);
      CoreImporter.KeepsFilesTrans(old(disk.files), filesBefore, disk.files);
      if b.Failure? {
        NotPlaceableEarlier(root, atts[j], old(disk.files), filesBefore, dests, {});
        assert FailsWith(root, atts[j], b.error);
        return Failure(b.error), after, placed;
      }
      AttachmentsMergedGrows(atts[..j], merged, copied, after);
      copied := after;
      AttachmentsMergedSnoc(atts, merged, copied, j, b.value);
      merged := merged + [b.value];
    }
    assert atts[..|atts|] == atts;
    return Success(merged), copied, placed;
  }

  lemma MessagesMergedSnoc(messages: seq<Message>, merged: seq<Message>, copied: map<String, String>, i: nat, atts: seq<Attachment>)
    requires i < |messages| && MessagesMerged(messages[..i], merged, copied)
    requires AttachmentsMerged(messages[i].attachments, atts, copied)
    ensures MessagesMerged(messages[..i + 1], merged + [messages[i].(attachments := atts)], copied)
  {
    assert messages[..i + 1] == messages[..i] + [messages[i]];
  }

  lemma MessagesMergedGrows(messages: seq<Message>, merged: seq<Message>, before: map<String, String>, after: map<String, String>)
    requires MessagesMerged(messages, merged, before) && Grows(before, after)
    ensures MessagesMerged(messages, merged, after)
  {
    forall i | 0 <= i < |messages|
      ensures AttachmentsMerged(messages[i].attachments, merged[i].attachments, after)
    {
      AttachmentsMergedGrows(messages[i].attachments, merged[i].attachments, before, after);
    }
  }

  /** The files the merge may copy to: the initial path of every
      attachment with a source path. */
  ghost function Destinations(root: String, messages: seq<Message>): set<String> {
    set i, j | 0 <= i < |messages| && 0 <= j < |messages[i].attachments|
                 && CoreImporter.Truthy(messages[i].attachments[j].sourcePath)
             :: InitialPath(root, messages[i].attachments[j])
  }

  lemma InDestinations(root: String, messages: seq<Message>, i: nat)
    requires i < |messages|
    ensures forall j :: 0 <= j < |messages[i].attachments| && CoreImporter.Truthy(messages[i].attachments[j].sourcePath) ==>
              InitialPath(root, messages[i].attachments[j]) in Destinations(root, messages)
  {
  }

  /** Every attachment of `messages` can be placed. */
  ghost predicate AllPlaceable(root: String, messages: seq<Message>, files: map<String, FileEntry>) {
    forall i, j :: 0 <= i < |messages| && 0 <= j < |messages[i].attachments| ==>
      Placeable(root, messages[i].attachments[j], files, Destinations(root, messages))
  }

  /** `e` is the error of an attachment of `messages` that cannot be
      placed. */
  ghost predicate MessageFailsWith(root: String, messages: seq<Message>, files: map<String, FileEntry>, e: String) {
    exists i, j :: && 0 <= i < |messages| && 0 <= j < |messages[i].attachments|
                   && CoreImporter.Truthy(messages[i].attachments[j].sourcePath)
                   && !Placeable(root, messages[i].attachments[j], files, Destinations(root, messages))
                   && FailsWith(root, messages[i].attachments[j], e)
  }

  /** The outer loop of `mergeConversationAttachments`, over the messages,
      with one copy map for the whole conversation. */
  method MergeMessages(disk: ImportTarget, attachmentsDirectory: String, root: String, messages: seq<Message>)
    returns (r: Result<seq<Message>>, ghost copied: map<String, String>, ghost placed: map<String, String>)
    requires disk.Valid()
    modifies disk
    ensures disk.Valid() && old(disk.folders) <= disk.folders
    ensures KeepsFiles(old(disk.files), disk.files)
    ensures CopiesOnDisk(copied, placed, attachmentsDirectory, root, disk.files, disk.folders)
    ensures r.Success? ==> MessagesMerged(messages, r.value, copied)
    ensures r.Failure? ==> MessageFailsWith(root, messages, old(disk.files), r.error)
    ensures AllPlaceable(root, messages, old(disk.files)) ==> r.Success?
  {
    ghost var dests := Destinations(root, messages);
    var copiedById: map<String, String> := map[];
    placed := map[];
    var result: seq<Message> := [];
    for i := 0 to |messages|
      invariant disk.Valid() && old(disk.folders) <= disk.folders
      invariant KeepsFiles(old(disk.files), disk.files) && AddsOnly(old(disk.files), disk.files, dests)
      invariant CopiesOnDisk(copiedById, placed, attachmentsDirectory, root, disk.files, disk.folders)
      invariant MessagesMerged(messages[..i], result, copiedById)
    {
      var message := messages[i];
      var merged, after;
      ghost var filesBefore := disk.files;
      InDestinations(root, messages, i);
      merged, after, placed :=
        MergeMessageAttachments(disk, attachmentsDirectory, root, message.attachments, copiedById, placed, dests);
      CoreImporter.KeepsFilesTrans(old(disk.files), filesBefore, disk.files);
      if merged.Failure? {
        ghost var j :| && 0 <= j < |message.attachments| && CoreImporter.Truthy(message.attachments[j].sourcePath)
                       && !Placeable(root, message.attachments[j], filesBefore, dests)
                       && FailsWith(root, message.attachments[j], merged.error);
        NotPlaceableEarlier(root, message.attachments[j], old(disk.files), filesBefore, dests, dests);
        assert messages[i].attachments[j] == message.attachments[j];
        return Failure(merged.error), after, placed;
      }
      MessagesMergedGrows(messages[..i], result, copiedById, after);
      MessagesMergedSnoc(messages, result, after, i, merged.value);
      copiedById := after;
      result := result + [message.(attachments := merged.value)];
    }
    assert messages[..|messages|] == messages;
    return Success(result), copiedById, placed;
  }

  /** The merge cannot fail: no file is where the attachments root goes,
      and every attachment can be placed. */
  ghost predicate MergeSucceeds(vaultBasePath: String, settings: Settings, conversation: ConversationRecord,
                                files: map<String, FileEntry>) {
    var root := AttachmentsRoot(vaultBasePath, settings.attachmentsDirectory);
    root !in files && AllPlaceable(root, conversation.messages, files)
  }

  /** `e` is the error of a failed merge: a file where the attachments root
      goes, or an attachment that cannot be placed. */
  ghost predicate MergeFailsWith(vaultBasePath: String, settings: Settings, conversation: ConversationRecord,
                                 files: map<String, FileEntry>, e: String) {
    var root := AttachmentsRoot(vaultBasePath, settings.attachmentsDirectory);
    || (root in files && e == Eexist(root))
    || (root !in files && MessageFailsWith(root, conversation.messages, files, e))
  }

  /** How a merge in a disk holding `files` may end: a failure with one of
      the errors above, and never a failure when the merge cannot fail. */
  ghost predicate MergeOutcome(vaultBasePath: String, settings: Settings, conversation: ConversationRecord,
                               files: map<String, FileEntry>, r: Result<ConversationRecord>) {
    && (r.Failure? ==> MergeFailsWith(vaultBasePath, settings, conversation, files, r.error))
    && (MergeSucceeds(vaultBasePath, settings, conversation, files) ==> r.Success?)
  }

  /** `mergeConversationAttachments`: the attachments root is made first;
      then every attachment with a source path is placed once per id and
      given its vault path and link. No existing file on disk changes. */
  method MergeConversationAttachments(disk: ImportTarget, settings: Settings, vaultBasePath: String,
                                      conversation: ConversationRecord)
    returns (r: Result<ConversationRecord>, ghost copied: map<String, String>, ghost placed: map<String, String>)
    requires disk.Valid()
    modifies disk
    ensures disk.Valid() && old(disk.folders) <= disk.folders
    ensures KeepsFiles(old(disk.files), disk.files)
    ensures AttachmentsRoot(vaultBasePath, settings.attachmentsDirectory) in old(disk.files) ==>
              r.Failure? && disk.files == old(disk.files)
    ensures MergeOutcome(vaultBasePath, settings, conversation, old(disk.files), r)
    ensures r.Success? ==>
              && AttachmentsRoot(vaultBasePath, settings.attachmentsDirectory) in disk.folders
              && r.value == conversation.(messages := r.value.messages)
              && MessagesMerged(conversation.messages, r.value.messages, copied)
              && CopiesOnDisk(copied, placed, settings.attachmentsDirectory,
                              AttachmentsRoot(vaultBasePath, settings.attachmentsDirectory), disk.files, disk.folders)
  {
    copied, placed := map[], map[];
    var root := AttachmentsRoot(vaultBasePath, settings.attachmentsDirectory);
    var made := EnsureDirectory(disk, root);
    if made.Some? {
      return Failure(made.value), copied, placed;
    }
    var messages;
    messages, copied, placed := MergeMessages(disk, settings.attachmentsDirectory, root, conversation.messages);
    if messages.Failure? {
      return Failure(messages.error), copied, placed;
    }
    r := Success(conversation.(messages := messages.value));
  }

  // ---------------------------------------------------------------------
  // Notes and state

  /** `shouldSkipByState`: a conversation with a state entry is skipped
      unless both it and the entry carry an update time and the two
      differ. */
  predicate ShouldSkipByState(state: map<String, StateItem>, conversation: ConversationRecord) {
    && conversation.importKey in state
    && var existing := state[conversation.importKey];
       || !CoreImporter.Truthy(existing.updatedAt)
       || !CoreImporter.Truthy(conversation.updatedAt)
       || existing.updatedAt == conversation.updatedAt
  }

  /** What the import records for a conversation written to `notePath`. */
  function Recorded(conversation: ConversationRecord, notePath: String, now: String): (r: StateItem)
    ensures r.importKey == conversation.importKey && r.updatedAt == conversation.updatedAt
  {
    StateItem(conversation.conversationId, conversation.importKey, notePath, conversation.updatedAt, now)
  }

  /** A conversation just recorded is skipped by the next import, and one
      recorded with another update time is imported again. */
  lemma {:induction false} RecordedIsSkipped(state: map<String, StateItem>, conversation: ConversationRecord,
                                             notePath: String, now: String, later: ConversationRecord)
    requires later.importKey == conversation.importKey
    ensures ShouldSkipByState(state[conversation.importKey := Recorded(conversation, notePath, now)], conversation)
    ensures CoreImporter.Truthy(conversation.updatedAt) && CoreImporter.Truthy(later.updatedAt)
              && later.updatedAt != conversation.updatedAt ==>
            !ShouldSkipByState(state[conversation.importKey := Recorded(conversation, notePath, now)], later)
  {
    var s := state[conversation.importKey := Recorded(conversation, notePath, now)];
    assert s[conversation.importKey].updatedAt == conversation.updatedAt;
  }

  /** A conversation without a state entry is never skipped. */
  lemma UnknownIsImported(state: map<String, StateItem>, conversation: ConversationRecord)
    requires conversation.importKey !in state
    ensures !ShouldSkipByState(state, conversation)
  {
  }

  /** The note path `upsertNote` asks for: the conversation's file name in
      the notes folder, normalised. */
  function RequestedPath(notesDirectory: String, conversation: ConversationRecord): String {
    NormalizePath(VaultPath.Join(notesDirectory, PathUtils.BuildConversationFileName(conversation.title, conversation.conversationId)))
  }

  /** Whether `upsertNote` rewrites the recorded note in place: a recorded
      path that still exists, with overwriting on. */
  predicate RewritesInPlace(vault: ImportTarget, overwrite: bool, existingPath: Option<String>)
    reads vault
  {
    CoreImporter.Truthy(existingPath) && vault.Exists(existingPath.value) && overwrite
  }

  /** A path `ensureUniqueVaultPath` may return for `requested` in a vault
      holding `files` and `folders`: a free one; the requested path itself
      when that is free, and else its first free `-n` suffix. */
  ghost predicate FreeNotePath(requested: String, path: String, files: map<String, FileEntry>, folders: set<String>) {
    var base := CoreImporter.StripMdExtension(requested);
    && path !in files && path !in folders
    && (requested !in files && requested !in folders ==> path == requested)
    && ((requested in files || requested in folders) ==>
          exists n :: n >= 2 && path == CoreImporter.Suffixed(base, n, ".md")
                      && forall j :: 2 <= j < n ==>
                           CoreImporter.Suffixed(base, j, ".md") in files || CoreImporter.Suffixed(base, j, ".md") in folders)
  }

  /** `upsertNote`: the recorded note is rewritten in place when it still
      exists and overwriting is on; otherwise the note is created at the
      requested path when it is free, and else at the first free `-n`
      suffix of it. Exactly the returned path is written. */
  method UpsertNote(vault: ImportTarget, settings: Settings, conversation: ConversationRecord, markdown: String,
                    existingPath: Option<String>)
    returns (path: String)
    requires vault.Valid()
    modifies vault
    ensures vault.Valid() && vault.folders == old(vault.folders)
    ensures vault.files == old(vault.files)[path := TextFile(markdown)]
    ensures old(RewritesInPlace(vault, settings.overwriteOnReimport, existingPath)) ==> path == existingPath.value
    ensures !old(RewritesInPlace(vault, settings.overwriteOnReimport, existingPath)) ==>
              FreeNotePath(RequestedPath(settings.notesDirectory, conversation), path, old(vault.files), old(vault.folders))
  {
    if CoreImporter.Truthy(existingPath) {
      if vault.Exists(existingPath.value) && settings.overwriteOnReimport {
        vault.Write(existingPath.value, TextFile(markdown));
        return existingPath.value;
      }
    }
    var fileName := PathUtils.BuildConversationFileName(conversation.title, conversation.conversationId);
    var requestedPath := NormalizePath(VaultPath.Join(settings.notesDirectory, fileName));
    path := CoreImporter.EnsureUniqueVaultPath(vault, requestedPath);
    assert FreeNotePath(requestedPath, path, vault.files, vault.folders);
    vault.Write(path, TextFile(markdown));
  }

  /** `files` is `before` with exactly the file at `path` added or
      replaced. */
  ghost predicate WrittenOnlyAt(before: map<String, FileEntry>, files: map<String, FileEntry>, path: String) {
    && files.Keys == before.Keys + {path}
    && forall q :: q in before && q != path ==> files[q] == before[q]
  }

  lemma WrittenOnlyAtUpdate(before: map<String, FileEntry>, path: String, entry: FileEntry)
    ensures WrittenOnlyAt(before, before[path := entry], path)
  {
  }

  /** The note of a conversation that is not skipped, and its record: the
      note is upserted with the recorded path, if any, as the one to
      rewrite, and the state then records the path written. */
  method WriteAndRecord(vault: ImportTarget, settings: Settings, state: ImportState, conversation: ConversationRecord,
                        markdown: String, now: String)
    returns (notePath: String)
    requires vault.Valid()
    modifies vault, state
    ensures vault.Valid() && vault.folders == old(vault.folders)
    ensures vault.files == old(vault.files)[notePath := TextFile(markdown)]
    ensures !settings.overwriteOnReimport ==> notePath !in old(vault.files)
    ensures state.conversations == old(state.conversations)[conversation.importKey := Recorded(conversation, notePath, now)]
  {
    var existing := if conversation.importKey in state.conversations
                    then Some(state.conversations[conversation.importKey].notePath) else None;
    var recorded := state.conversations;
    notePath := UpsertNote(vault, settings, conversation, markdown, existing);
    state.conversations := recorded[conversation.importKey := Recorded(conversation, notePath, now)];
  }

  /** A conversation that is not skipped: its attachments are merged, its
      note rendered and written, and the state records it. A failure of
      the merge leaves the vault and the state as they were. */
  method ImportConversation(vault: ImportTarget, disk: ImportTarget, vaultBasePath: String, settings: Settings,
                            state: ImportState, template: String, conversation: ConversationRecord,
                            render: (String, ConversationRecord) -> String, now: String)
    returns (r: Result<String>, ghost merge: Result<ConversationRecord>, ghost copied: map<String, String>)
    requires vault.Valid() && disk.Valid() && vault != disk
    modifies vault, disk, state
    ensures vault.Valid() && disk.Valid()
    ensures vault.folders == old(vault.folders) && old(disk.folders) <= disk.folders
    ensures KeepsFiles(old(disk.files), disk.files)
    ensures r.Failure? ==> vault.files == old(vault.files) && state.conversations == old(state.conversations)
    ensures MergeOutcome(vaultBasePath, settings, conversation, old(disk.files), merge)
    ensures r.Failure? <==> merge.Failure?
    ensures r.Failure? ==> r.error == merge.error
    ensures r.Success? ==>
              && state.conversations == old(state.conversations)[conversation.importKey := Recorded(conversation, r.value, now)]
              && WrittenOnlyAt(old(vault.files), vault.files, r.value)
              && vault.files[r.value].TextFile?
              && Template.PostProcess(vault.files[r.value].content) == vault.files[r.value].content
              && (!settings.overwriteOnReimport ==> r.value !in old(vault.files))
    ensures r.Success? ==>
              && merge.value == conversation.(messages := merge.value.messages)
              && MessagesMerged(conversation.messages, merge.value.messages, copied)
              && vault.files[r.value] == TextFile(Template.RenderConversationMarkdown(merge.value, template, render))
  {
    var merged;
    ghost var placed;
    merged, copied, placed := MergeConversationAttachments(disk, settings, vaultBasePath, conversation);
    assert unchanged(vault, state);
    merge := merged;
    if merged.Failure? {
      return Failure(merged.error), merge, copied;
    }
    var notePath := WriteRendered(vault, settings, state, conversation, merged.value, template, render, now);
    return Success(notePath), merge, copied;
  }

  /** The note of a merged conversation, rendered and written, and its
      record. */
  method WriteRendered(vault: ImportTarget, settings: Settings, state: ImportState, conversation: ConversationRecord,
                       merged: ConversationRecord, template: String, render: (String, ConversationRecord) -> String,
                       now: String)
    returns (notePath: String)
    requires vault.Valid()
    modifies vault, state
    ensures vault.Valid() && vault.folders == old(vault.folders)
    ensures state.conversations == old(state.conversations)[conversation.importKey := Recorded(conversation, notePath, now)]
    ensures WrittenOnlyAt(old(vault.files), vault.files, notePath)
    ensures vault.files[notePath] == TextFile(Template.RenderConversationMarkdown(merged, template, render))
    ensures Template.PostProcess(vault.files[notePath].content) == vault.files[notePath].content
    ensures !settings.overwriteOnReimport ==> notePath !in old(vault.files)
  {
    var markdown := Template.RenderConversationMarkdown(merged, template, render);
    assert Template.PostProcess(markdown) == markdown;
    notePath := WriteAndRecord(vault, settings, state, conversation, markdown, now);
    WrittenOnlyAtUpdate(old(vault.files), notePath, TextFile(markdown));
  }

  /** The body of the import loop for one conversation. A conversation the
      state says to skip changes nothing and yields no note path. Otherwise
      it is imported as above, so that importing it again skips it. No
      existing file of the disk store changes (the vault is a store of its
      own here, so a note rewritten through the vault is not seen on disk),
      and without overwriting no existing note does either. */
  method ImportOne(vault: ImportTarget, disk: ImportTarget, vaultBasePath: String, settings: Settings,
                   state: ImportState, template: String, conversation: ConversationRecord,
                   render: (String, ConversationRecord) -> String, now: String)
    returns (r: Result<Option<String>>)
    requires vault.Valid() && disk.Valid() && vault != disk
    modifies vault, disk, state
    ensures vault.Valid() && disk.Valid()
    ensures vault.folders == old(vault.folders) && old(disk.folders) <= disk.folders
    ensures KeepsFiles(old(disk.files), disk.files)
    ensures !settings.overwriteOnReimport ==> KeepsFiles(old(vault.files), vault.files)
    ensures ShouldSkipByState(old(state.conversations), conversation) <==> r == Success(None)
    ensures r == Success(None) ==>
              && vault.files == old(vault.files) && disk.files == old(disk.files)
              && disk.folders == old(disk.folders) && state.conversations == old(state.conversations)
    ensures r.Failure? ==> vault.files == old(vault.files) && state.conversations == old(state.conversations)
    ensures r.Success? && r.value.Some? ==>
              && state.conversations == old(state.conversations)[conversation.importKey := Recorded(conversation, r.value.value, now)]
              && WrittenOnlyAt(old(vault.files), vault.files, r.value.value)
              && vault.files[r.value.value].TextFile?
              && Template.PostProcess(vault.files[r.value.value].content) == vault.files[r.value.value].content
    ensures r.Success? ==> ShouldSkipByState(state.conversations, conversation)
  {
    if ShouldSkipByState(state.conversations, conversation) {
      return Success(None);
    }
    var imported;
    ghost var merge, copied;
    imported, merge, copied := ImportConversation(vault, disk, vaultBasePath, settings, state, template, conversation, render, now);
    if imported.Failure? {
      return Failure(imported.error);
    }
    RecordedIsSkipped(old(state.conversations), conversation, imported.value, now, conversation);
    return Success(Some(imported.value));
  }

  /** The loop of `importChatGptHistory`: each conversation is imported on
      its own, a failure becoming an error line `id: message` without
      stopping the rest. Every conversation is counted exactly once, as
      imported, skipped or failed, and the errors follow the order of the
      conversations. The state keeps every entry it had and gains only the
      import keys of these conversations. */
  method ImportAll(vault: ImportTarget, disk: ImportTarget, vaultBasePath: String, settings: Settings,
                   state: ImportState, template: String, conversations: seq<ConversationRecord>,
                   render: (String, ConversationRecord) -> String, now: String)
    returns (r: CoreImporter.ImportResult, ghost failed: seq<nat>)
    requires vault.Valid() && disk.Valid() && vault != disk
    modifies vault, disk, state
    ensures vault.Valid() && disk.Valid()
    ensures vault.folders == old(vault.folders) && old(disk.folders) <= disk.folders
    ensures r.imported + r.skipped + |r.errors| == |conversations|
    ensures |failed| == |r.errors|
    ensures forall e :: 0 <= e < |failed| ==>
              failed[e] < |conversations| && StartsWith(r.errors[e], conversations[failed[e]].conversationId + ": ")
    ensures forall e, f :: 0 <= e < f < |failed| ==> failed[e] < failed[f]
    ensures KeepsFiles(old(disk.files), disk.files)
    ensures !settings.overwriteOnReimport ==> KeepsFiles(old(vault.files), vault.files)
    ensures forall key :: key in old(state.conversations) ==> key in state.conversations
    ensures forall key :: key in state.conversations && key !in old(state.conversations) ==>
              exists k :: 0 <= k < |conversations| && conversations[k].importKey == key
  {
    failed := [];
    var errors: seq<String> := [];
    var imported: nat := 0;
    var skipped: nat := 0;
    for k := 0 to |conversations|
      invariant vault.Valid() && disk.Valid()
      invariant vault.folders == old(vault.folders) && old(disk.folders) <= disk.folders
      invariant imported + skipped + |errors| == k
      invariant |failed| == |errors|
      invariant forall e :: 0 <= e < |failed| ==>
                  failed[e] < k && StartsWith(errors[e], conversations[failed[e]].conversationId + ": ")
      invariant forall e, f :: 0 <= e < f < |failed| ==> failed[e] < failed[f]
      invariant KeepsFiles(old(disk.files), disk.files)
      invariant !settings.overwriteOnReimport ==> KeepsFiles(old(vault.files), vault.files)
      invariant forall key :: key in old(state.conversations) ==> key in state.conversations
      invariant forall key :: key in state.conversations && key !in old(state.conversations) ==>
                  exists i :: 0 <= i < k && conversations[i].importKey == key
    {
      var conversation := conversations[k];
      ghost var vaultBefore, diskBefore, stateBefore := vault.files, disk.files, state.conversations;
      var result := ImportOne(vault, disk, vaultBasePath, settings, state, template, conversation, render, now);
      CoreImporter.KeepsFilesTrans(old(disk.files), diskBefore, disk.files);
      if !settings.overwriteOnReimport {
        CoreImporter.KeepsFilesTrans(old(vault.files), vaultBefore, vault.files);
      }
      assert forall key :: key in state.conversations ==> key in stateBefore || key == conversation.importKey;
      if result.Failure? {
        var line := conversation.conversationId + ": " + result.error;
        assert line[..|conversation.conversationId + ": "|] == conversation.conversationId + ": ";
        errors := errors + [line];
        failed := failed + [k];
      } else if result.value.None? {
        skipped := skipped + 1;
      } else {
        imported := imported + 1;
      }
    }
    return CoreImporter.ImportResult(imported, skipped, errors), failed;
  }

  /** The parser options of the plugin: the message filters from the
      settings and no attachment resolver. */
  function ParserOptions(settings: Settings): (o: ChatGptParser.ParseOptions)
    ensures o.includeSystemMessages == Some(settings.includeSystemMessages)
    ensures o.includeHiddenMessages == Some(settings.includeHiddenMessages)
    ensures o.resolveAttachmentPath.None?
  {
    ChatGptParser.ParseOptions(Some(settings.includeSystemMessages), Some(settings.includeHiddenMessages), None)
  }

  /** The conversations of a file `decode` accepts all have a terminating
      active path. */
  lemma ReadTerminates(files: map<String, FileEntry>, exportDirectory: String, decode: String -> ChatGptImport.Decoded)
    requires forall text :: decode(text).ArrayOf? ==>
               forall i :: 0 <= i < |decode(text).conversations| ==>
                 ChatGptParser.PathTerminates(decode(text).conversations[i])
    requires ReadConversationsFile(files, exportDirectory, decode).Success?
    ensures var cs := ReadConversationsFile(files, exportDirectory, decode).value;
            forall i :: 0 <= i < |cs| ==> ChatGptParser.PathTerminates(cs[i])
  {
    var path := VaultPath.Join(exportDirectory, ChatGptImport.ConversationsFile);
    assert decode(files[path].content).ArrayOf?;
  }

  /** The conversations parsed with the settings' filters and imported one
      by one; every parsed conversation is counted once. */
  method ParseAndImport(vault: ImportTarget, disk: ImportTarget, vaultBasePath: String, settings: Settings,
                        state: ImportState, template: String, conversations: seq<ChatGptParser.ChatGptConversation>,
                        builtins: ChatGptParser.Builtins, render: (String, ConversationRecord) -> String, now: String)
    returns (r: CoreImporter.ImportResult, records: seq<ConversationRecord>)
    requires vault.Valid() && disk.Valid() && vault != disk
    requires forall i :: 0 <= i < |conversations| ==> ChatGptParser.PathTerminates(conversations[i])
    modifies vault, disk, state
    ensures vault.Valid() && disk.Valid()
    ensures exists from :: ChatGptParser.ParsedUpTo(conversations, |conversations|, records, from,
                                                    ParserOptions(settings), builtins)
    ensures r.imported + r.skipped + |r.errors| == |records|
    ensures KeepsFiles(old(disk.files), disk.files)
    ensures !settings.overwriteOnReimport ==> KeepsFiles(old(vault.files), vault.files)
  {
    ghost var from: seq<nat>;
    records, from := ChatGptParser.ParseChatGptConversations(conversations, ParserOptions(settings), builtins);
    ghost var failed;
    r, failed := ImportAll(vault, disk, vaultBasePath, settings, state, template, records, render, now);
  }

  /** `importChatGptHistory`: a blank export directory is an error before
      anything is read; so is a `conversations.json` that cannot be read or
      is not an array, and a custom template that cannot be read; each of
      these changes nothing. Otherwise the conversations are parsed with
      the settings' filters and imported one by one, and every parsed
      conversation is counted once. */
  method ImportChatGptHistory(vault: ImportTarget, disk: ImportTarget, vaultBasePath: String, settings: Settings,
                              state: ImportState, decode: String -> ChatGptImport.Decoded,
                              builtins: ChatGptParser.Builtins,
                              render: (String, ConversationRecord) -> String, now: String)
    returns (r: Result<CoreImporter.ImportResult>, records: seq<ConversationRecord>)
    requires vault.Valid() && disk.Valid() && vault != disk
    requires forall text :: decode(text).ArrayOf? ==>
               forall i :: 0 <= i < |decode(text).conversations| ==>
                 ChatGptParser.PathTerminates(decode(text).conversations[i])
    modifies vault, disk, state
    ensures vault.Valid() && disk.Valid()
    ensures AllSpace(settings.exportDirectory) ==> r == Failure(ChatGptImport.EmptyExportDirError)
    ensures !AllSpace(settings.exportDirectory) ==>
              var read := ReadConversationsFile(old(disk.files), Trim(settings.exportDirectory), decode);
              && (read.Failure? ==> r == Failure(read.error))
              && (read.Success? && LoadTemplate(old(disk.files), settings).Failure? ==>
                    r == Failure(LoadTemplate(old(disk.files), settings).error))
              && (read.Success? && LoadTemplate(old(disk.files), settings).Success? ==>
                    && r.Success?
                    && (exists from :: ChatGptParser.ParsedUpTo(read.value, |read.value|, records, from,
                                                                ParserOptions(settings), builtins))
                    && r.value.imported + r.value.skipped + |r.value.errors| == |records|)
    ensures r.Failure? ==> && vault.files == old(vault.files) && disk.files == old(disk.files)
                           && state.conversations == old(state.conversations)
    ensures KeepsFiles(old(disk.files), disk.files)
    ensures !settings.overwriteOnReimport ==> KeepsFiles(old(vault.files), vault.files)
  {
    records := [];
    TrimEmptyIffBlank(settings.exportDirectory);
    if Trim(settings.exportDirectory) == [] {
      return Failure(ChatGptImport.EmptyExportDirError), records;
    }
    var exportDirectory := Trim(settings.exportDirectory);
    var conversations := ReadConversationsFile(disk.files, exportDirectory, decode);
    if conversations.Failure? {
      return Failure(conversations.error), records;
    }
    var template := LoadTemplate(disk.files, settings);
    if template.Failure? {
      return Failure(template.error), records;
    }
    ReadTerminates(disk.files, exportDirectory, decode);
    var result;
    result, records := ParseAndImport(vault, disk, vaultBasePath, settings, state, template.value,
                                      conversations.value, builtins, render, now);
    return Success(result), records;
  }
}
