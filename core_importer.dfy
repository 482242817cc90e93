/** The import reconciler of the core package
    (packages/core/src/importer.ts): folders created one segment at a time,
    collision-free paths, notes matched by path or by the conversation id in
    their front matter, the overwrite/skip policy, attachment copies, and
    per-conversation error isolation. */
module CoreImporter {
  import opened Wrappers
  import opened Strings
  import opened Conversation
  import opened PathUtils
  import opened Template
  import opened FrontMatter
  import opened NoteStore
  import VaultPath

  /** The slashes at the start of `s` removed (`replace(/^\/+/g, "")`). */
  function DropLeadingSlashes(s: String): (r: String)
    ensures EndsWith(s, r) && (r == [] || r[0] != '/')
    ensures forall i :: 0 <= i < |s| - |r| ==> s[i] == '/'
  {
    if s != [] && s[0] == '/' then
      var r := DropLeadingSlashes(s[1..]);
      assert s[1..][|s| - 1 - |r|..] == s[|s| - |r|..];
      assert forall i :: 1 <= i < |s| - |r| ==> s[i] == s[1..][i - 1];
      r
    else s
  }

  /** `normalizeVaultPath`: normalised, without leading slashes, trimmed. */
  function NormalizeVaultPath(input: String): String
  {
    Trim(DropLeadingSlashes(VaultPath.Normalize(input)))
  }

  /** The non-empty pieces of `parts`, in order (`filter(Boolean)`). */
  function NonEmpty(parts: seq<String>): (r: seq<String>)
    ensures forall k :: 0 <= k < |r| ==> r[k] != [] && r[k] in parts
    ensures forall p :: p in parts && p != [] ==> p in r
  {
    if parts == [] then []
    else
      var rest := NonEmpty(parts[1..]);
      assert forall p :: p in parts[1..] ==> p in parts;
      assert forall p :: p in parts ==> p == parts[0] || p in parts[1..];
      if parts[0] != [] then [parts[0]] + rest else rest
  }

  /** The folders `ensureVaultFolder` visits for a normalised path: for each
      of its non-empty `/`-separated segments, the path up to and including
      that segment. */
  function FolderChain(normalized: String): seq<String>
  {
    ChainOf(NonEmpty(Split(normalized, '/')))
  }

  /** The prefixes of `parts`, each joined with `/`. */
  function ChainOf(parts: seq<String>): (r: seq<String>)
    ensures |r| == |parts| && forall k :: 0 <= k < |r| ==> r[k] == Join(parts[..k + 1], "/")
  {
    seq(|parts|, k requires 0 <= k < |parts| => Join(parts[..k + 1], "/"))
  }

  /** Each folder of the chain is the previous one, a slash and the next
      segment. */
  lemma {:induction false} JoinSnoc(parts: seq<String>, x: String)
    requires parts != []
    ensures Join(parts + [x], "/") == Join(parts, "/") + "/" + x
    decreases |parts|
  {
    if |parts| > 1 {
      assert (parts + [x])[1..] == parts[1..] + [x];
      JoinSnoc(parts[1..], x);
    }
  }

  /** The folders `ensureVaultFolder` creates: those of the chain that are
      not already files. */
  ghost function Created(files: map<String, FileEntry>, chain: seq<String>): set<String> {
    set q | q in chain && q !in files
  }

  /** The folder set after visiting `chain` in order, creating each folder
      that does not exist yet. */
  ghost function AfterChain(folders: set<String>, files: map<String, FileEntry>, chain: seq<String>): set<String>
    decreases |chain|
  {
    if chain == [] then folders
    else
      var before := AfterChain(folders, files, chain[..|chain| - 1]);
      var q := chain[|chain| - 1];
      if q in files || q in before then before else before + {q}
  }

  lemma AfterChainStep(folders: set<String>, files: map<String, FileEntry>, chain: seq<String>, k: nat)
    requires k < |chain|
    ensures var before := AfterChain(folders, files, chain[..k]);
            AfterChain(folders, files, chain[..k + 1])
            == if chain[k] in files || chain[k] in before then before else before + {chain[k]}
  {
    assert chain[..k + 1][..k] == chain[..k];
  }

  /** Visiting the chain adds exactly its folders that are not files. */
  lemma {:induction false} AfterChainAdds(folders: set<String>, files: map<String, FileEntry>, chain: seq<String>)
    ensures AfterChain(folders, files, chain) == folders + Created(files, chain)
    decreases |chain|
  {
    if chain != [] {
      var init := chain[..|chain| - 1];
      AfterChainAdds(folders, files, init);
      assert chain == init + [chain[|chain| - 1]];
      assert Created(files, chain) == Created(files, init) + Created(files, [chain[|chain| - 1]]);
    }
  }

  /** `ensureVaultFolder`: afterwards every folder of the chain of the
      normalised path exists; exactly the chain's folders that were not
      already files are added to the folder set, and no file changes. A path
      that normalises to "" has an empty chain, so nothing is created. */
  method EnsureVaultFolder(target: ImportTarget, dirPath: String)
    modifies target
    ensures target.files == old(target.files) && target.order == old(target.order)
    ensures target.folders == old(target.folders) + Created(old(target.files), FolderChain(NormalizeVaultPath(dirPath)))
    ensures forall q :: q in FolderChain(NormalizeVaultPath(dirPath)) ==> target.Exists(q)
  {
    var normalized := NormalizeVaultPath(dirPath);
    CreateFolderChain(target, normalized);
  }

  /** The body of `ensureVaultFolder` after normalising: nothing for "",
      otherwise the chain of the non-empty segments. */
  method CreateFolderChain(target: ImportTarget, normalized: String)
    modifies target
    ensures target.files == old(target.files) && target.order == old(target.order)
    ensures target.folders == old(target.folders) + Created(old(target.files), FolderChain(normalized))
    ensures forall q :: q in FolderChain(normalized) ==> target.Exists(q)
  {
    if normalized == [] {
      EmptyPathHasNoChain();
      return;
    }
    var parts := NonEmpty(Split(normalized, '/'));
    CreateChain(target, parts);
  }

  /** The path "" has no folders to create. */
  lemma EmptyPathHasNoChain()
    ensures FolderChain([]) == []
  {
    assert Split([], '/') == [[]];
  }

  /** The loop of `ensureVaultFolder` over the non-empty segments: each
      prefix of the segments, joined with `/`, is created unless something
      already exists there. */
  method CreateChain(target: ImportTarget, parts: seq<String>)
    requires forall k :: 0 <= k < |parts| ==> parts[k] != []
    modifies target
    ensures target.files == old(target.files) && target.order == old(target.order)
    ensures target.folders == old(target.folders) + Created(old(target.files), ChainOf(parts))
    ensures forall q :: q in ChainOf(parts) ==> target.Exists(q)
  {
    ghost var chain := ChainOf(parts);
    AfterChainAdds(target.folders, target.files, chain);
    CreatedCovers(target.folders, target.files, chain);
    var current: String := [];
    for k := 0 to |parts|
      invariant target.files == old(target.files) && target.order == old(target.order)
      invariant k == 0 ==> current == []
      invariant k > 0 ==> current == chain[k - 1] && current != []
      invariant target.folders == AfterChain(old(target.folders), old(target.files), chain[..k])
    {
      ChainStep(parts, k);
      if current != [] {
        current := current + "/" + parts[k];
      } else {
        current := parts[k];
      }
      AfterChainStep(old(target.folders), old(target.files), chain, k);
      if !target.Exists(current) {
        target.CreateFolder(current);
      }
    }
    assert chain[..|parts|] == chain;
  }

  /** After the visit every folder of the chain is a file or a folder. */
  lemma CreatedCovers(folders: set<String>, files: map<String, FileEntry>, chain: seq<String>)
    ensures forall q :: q in chain ==> q in files || q in folders + Created(files, chain)
  {
  }

  /** One step of the chain: the first folder is the first segment, each
      later one the previous folder, a slash and the next segment. */
  lemma ChainStep(parts: seq<String>, k: nat)
    requires k < |parts| && parts[k] != []
    ensures var chain := ChainOf(parts);
            && chain[k] != []
            && (k == 0 ==> chain[k] == parts[0])
            && (k > 0 ==> chain[k] == chain[k - 1] + "/" + parts[k])
  {
    if k == 0 {
      assert parts[..1] == [parts[0]];
    } else {
      assert parts[..k + 1] == parts[..k] + [parts[k]];
      JoinSnoc(parts[..k], parts[k]);
    }
  }

  /** `${base}-${i}${ext}`: the i-th candidate of a suffix search. */
  function Suffixed(base: String, i: nat, ext: String): (r: String)
    ensures StartsWith(r, base + "-") && EndsWith(r, ext)
  {
    var r := base + "-" + NatToString(i) + ext;
    assert r[..|base| + 1] == base + "-";
    assert r[|r| - |ext|..] == ext;
    r
  }

  /** Distinct numbers give distinct candidates. */
  lemma SuffixedInjective(base: String, i: nat, j: nat, ext: String)
    requires Suffixed(base, i, ext) == Suffixed(base, j, ext)
    ensures i == j
  {
    var a := Suffixed(base, i, ext);
    var si := NatToString(i);
    var sj := NatToString(j);
    assert |si| == |sj|;
    assert a[|base| + 1..|base| + 1 + |si|] == si;
    assert Suffixed(base, j, ext)[|base| + 1..|base| + 1 + |sj|] == sj;
    NatToStringInjective(i, j);
  }

  /** The loop shared by `ensureUniqueVaultPath` and `ensureUniqueFilePath`:
      the candidate for the smallest `n >= 2` that does not exist. The loop
      ends because every candidate it passes over is a distinct existing
      path, and the store holds finitely many. */
  method FirstFreeSuffix(target: ImportTarget, base: String, ext: String) returns (r: String, ghost n: nat)
    ensures n >= 2 && r == Suffixed(base, n, ext) && !target.Exists(r)
    ensures forall j :: 2 <= j < n ==> target.Exists(Suffixed(base, j, ext))
  {
    var i: nat := 2;
    r := Suffixed(base, i, ext);
    while target.Exists(r)
      invariant i >= 2 && r == Suffixed(base, i, ext)
      invariant forall j :: 2 <= j < i ==> target.Exists(Suffixed(base, j, ext))
      invariant Tried(base, i, ext) <= Occupied(target)
      decreases |Occupied(target)| - |Tried(base, i, ext)|
    {
      TriedStep(Occupied(target), base, i, ext);
      i := i + 1;
      r := Suffixed(base, i, ext);
    }
    n := i;
  }

  /** The paths in use: files and folders. */
  ghost function Occupied(target: ImportTarget): set<String>
    reads target
  {
    target.files.Keys + target.folders
  }

  /** The candidates a suffix search has passed over before `i`. */
  ghost function Tried(base: String, i: nat, ext: String): set<String> {
    set j | 2 <= j < i :: Suffixed(base, j, ext)
  }

  /** Passing over an occupied candidate: the tried candidates stay
      occupied paths, and one more of them is tried. */
  lemma TriedStep(occupied: set<String>, base: String, i: nat, ext: String)
    requires i >= 2 && Tried(base, i, ext) <= occupied && Suffixed(base, i, ext) in occupied
    ensures Tried(base, i + 1, ext) <= occupied
    ensures |Tried(base, i, ext)| < |Tried(base, i + 1, ext)| <= |occupied|
  {
    forall j | 2 <= j < i ensures Suffixed(base, j, ext) != Suffixed(base, i, ext) {
      if Suffixed(base, j, ext) == Suffixed(base, i, ext) {
        SuffixedInjective(base, j, i, ext);
      }
    }
    assert Tried(base, i + 1, ext) == Tried(base, i, ext) + {Suffixed(base, i, ext)};
    SubsetCardinality(Tried(base, i + 1, ext), occupied);
  }

  lemma SubsetCardinality<T>(a: set<T>, b: set<T>)
    requires a <= b
    ensures |a| <= |b|
  {
    assert b == a + (b - a);
  }

  /** `initialPath.replace(/\.md$/, "")`. */
  function StripMdExtension(path: String): (r: String)
    ensures EndsWith(path, ".md") ==> r + ".md" == path
    ensures !EndsWith(path, ".md") ==> r == path
  {
    if EndsWith(path, ".md") then path[..|path| - 3] else path
  }

  /** `ensureUniqueVaultPath`: the initial path when it is free; otherwise
      `base-n.md` for the smallest free `n >= 2`, where `base` is the path
      without its `.md`. The result never exists. */
  method EnsureUniqueVaultPath(target: ImportTarget, initialPath: String) returns (r: String)
    ensures !target.Exists(r)
    ensures !target.Exists(initialPath) ==> r == initialPath
    ensures target.Exists(initialPath) ==>
              exists n :: n >= 2 && r == Suffixed(StripMdExtension(initialPath), n, ".md")
                          && forall j :: 2 <= j < n ==> target.Exists(Suffixed(StripMdExtension(initialPath), j, ".md"))
  {
    if !target.Exists(initialPath) {
      return initialPath;
    }
    ghost var n;
    r, n := FirstFreeSuffix(target, StripMdExtension(initialPath), ".md");
  }

  /** The split `ensureUniqueFilePath` makes: before and from the last `.`
      of the whole path. */
  function SplitAtLastDot(path: String): (r: (String, String))
    ensures r.0 + r.1 == path
    ensures r.1 == [] || (r.1[0] == '.' && '.' !in r.1[1..])
    ensures r.1 == [] <==> '.' !in path
  {
    match LastIndexOf(path, '.')
    case None => (path, [])
    case Some(i) =>
      assert path[..i] + path[i..] == path;
      assert path[i..][1..] == path[i + 1..];
      (path[..i], path[i..])
  }

  /** `ensureUniqueFilePath`: the initial path when it is free; otherwise
      the path with `-n` inserted before its last `.` (or appended when it
      has none) for the smallest free `n >= 2`. The result never exists. */
  method EnsureUniqueFilePath(target: ImportTarget, initialPath: String) returns (r: String)
    ensures !target.Exists(r)
    ensures !target.Exists(initialPath) ==> r == initialPath
    ensures target.Exists(initialPath) ==>
              var (base, ext) := SplitAtLastDot(initialPath);
              exists n :: n >= 2 && r == Suffixed(base, n, ext)
                          && forall j :: 2 <= j < n ==> target.Exists(Suffixed(base, j, ext))
  {
    if !target.Exists(initialPath) {
      return initialPath;
    }
    var (base, ext) := SplitAtLastDot(initialPath);
    ghost var n;
    r, n := FirstFreeSuffix(target, base, ext);
  }

  /** With a dot in a folder name and none in the file name, the split of
      `ensureUniqueFilePath` puts the suffix into the folder: the second
      candidate for "a.b/c" is "a-2.b/c", a file in another folder. */
  lemma UniqueFilePathLeavesFolder()
    ensures var (base, ext) := SplitAtLastDot("a.b/c");
            Suffixed(base, 2, ext) == "a-2.b/c" && !StartsWith(Suffixed(base, 2, ext), "a.b/")
  {
    SplitOfDottedFolder();
    SuffixedIntoFolder();
  }

  /** The dot of the folder "a.b" is the last dot of "a.b/c". */
  lemma SplitOfDottedFolder()
    ensures SplitAtLastDot("a.b/c") == ("a", ".b/c")
  {
    var p: String := "a.b/c";
    assert p[1] == '.' && p[2..] == "b/c";
    assert '.' !in p[2..];
    LastIndexOfIs(p, '.', 1);
    assert p[..1] == "a" && p[1..] == ".b/c";
  }

  /** The second candidate built from that split. */
  lemma SuffixedIntoFolder()
    ensures Suffixed("a", 2, ".b/c") == "a-2.b/c"
    ensures !StartsWith(Suffixed("a", 2, ".b/c"), "a.b/")
  {
    assert NatToString(2) == "2";
    var r := Suffixed("a", 2, ".b/c");
    assert r == "a" + "-" + "2" + ".b/c";
    assert r[1] == '-';
  }

  /** The split `ensureUniqueFilePath` evidently intends: before and from
      the last `.` of the file name, ignoring dots in folder names. */
  function SplitFileExtension(path: String): (r: (String, String))
    ensures r.0 + r.1 == path
    ensures '/' !in r.1
    ensures r.1 == [] || (r.1[0] == '.' && '.' !in r.1[1..])
  {
    match LastIndexOf(path, '.')
    case None => (path, [])
    case Some(i) =>
      if '/' in path[i..] then (path, [])
      else
        assert path[..i] + path[i..] == path;
        assert path[i..][1..] == path[i + 1..];
        (path[..i], path[i..])
  }

  /** With the intended split, every candidate stays in the folder of the
      initial path: only the file name gets the suffix. */
  lemma SuffixStaysInFolder(dir: String, name: String, n: nat)
    requires '/' !in name
    ensures var (base, ext) := SplitFileExtension(dir + "/" + name);
            var (nameBase, nameExt) := SplitFileExtension(name);
            && Suffixed(base, n, ext) == dir + "/" + Suffixed(nameBase, n, nameExt)
            && '/' !in Suffixed(nameBase, n, nameExt)
  {
    var prefix := dir + "/";
    assert dir + "/" + name == prefix + name;
    SplitFileExtensionAfterSlash(prefix, name);
    var (nameBase, nameExt) := SplitFileExtension(name);
    assert forall k :: 0 <= k < |nameBase| ==> nameBase[k] == (nameBase + nameExt)[k];
    SuffixedNoSlash(nameBase, n, nameExt);
    SuffixedUnderPrefix(prefix, nameBase, n, nameExt);
  }

  /** The suffix goes after whatever prefix the base starts with. */
  lemma SuffixedUnderPrefix(prefix: String, base: String, n: nat, ext: String)
    ensures Suffixed(prefix + base, n, ext) == prefix + Suffixed(base, n, ext)
  {
    var d := NatToString(n);
    assert prefix + base + "-" + d + ext == prefix + (base + "-" + d + ext);
  }

  /** A suffixed name has a slash only where its base or extension has one. */
  lemma SuffixedNoSlash(base: String, n: nat, ext: String)
    requires '/' !in base && '/' !in ext
    ensures '/' !in Suffixed(base, n, ext)
  {
    var digits := NatToString(n);
    var t := Suffixed(base, n, ext);
    assert t == base + "-" + digits + ext;
    forall k | 0 <= k < |t|
      ensures t[k] != '/'
    {
      if k < |base| {
        assert t[k] == base[k];
      } else if k == |base| {
      } else if k < |base| + 1 + |digits| {
        assert t[k] == digits[k - |base| - 1];
      } else {
        assert t[k] == ext[k - |base| - 1 - |digits|];
      }
    }
  }

  /** Behind a folder prefix ending in `/`, the intended split is the split
      of the file name. */
  lemma SplitFileExtensionAfterSlash(prefix: String, name: String)
    requires prefix != [] && prefix[|prefix| - 1] == '/' && '/' !in name
    ensures SplitFileExtension(prefix + name) == (prefix + SplitFileExtension(name).0, SplitFileExtension(name).1)
  {
    if '.' in name {
      SplitAfterSlashDotted(prefix, name);
    } else {
      SplitAfterSlashUndotted(prefix, name);
    }
  }

  /** The last dot of a dotted name is the last dot of the whole path. */
  lemma SplitAfterSlashDotted(prefix: String, name: String)
    requires prefix != [] && prefix[|prefix| - 1] == '/' && '/' !in name && '.' in name
    ensures SplitFileExtension(prefix + name) == (prefix + SplitFileExtension(name).0, SplitFileExtension(name).1)
  {
    var path := prefix + name;
    var j := LastIndexOf(name, '.').value;
    LastIndexOfAppendIn(prefix, name, '.', j);
    assert path[|prefix| + j..] == name[j..];
    assert path[..|prefix| + j] == prefix + name[..j];
  }

  /** An undotted name has no extension, whatever dots the folders hold. */
  lemma SplitAfterSlashUndotted(prefix: String, name: String)
    requires prefix != [] && prefix[|prefix| - 1] == '/' && '/' !in name && '.' !in name
    ensures SplitFileExtension(prefix + name) == (prefix + SplitFileExtension(name).0, SplitFileExtension(name).1)
  {
    var path := prefix + name;
    LastIndexOfAppendOut(prefix, name, '.');
    match LastIndexOf(path, '.')
    case None =>
    case Some(i) =>
      assert path[i..][|prefix| - 1 - i] == '/';
  }

  /** `ensureUniqueFilePath` with the intended split: the initial path when
      it is free; otherwise the path with `-n` inserted before the extension
      of its file name (or appended when the name has none) for the smallest
      free `n >= 2`. The result never exists. */
  method EnsureUniqueFileInFolder(target: ImportTarget, initialPath: String) returns (r: String)
    ensures !target.Exists(r)
    ensures !target.Exists(initialPath) ==> r == initialPath
    ensures target.Exists(initialPath) ==>
              var (base, ext) := SplitFileExtension(initialPath);
              exists n :: n >= 2 && r == Suffixed(base, n, ext)
                          && forall j :: 2 <= j < n ==> target.Exists(Suffixed(base, j, ext))
  {
    if !target.Exists(initialPath) {
      return initialPath;
    }
    var (base, ext) := SplitFileExtension(initialPath);
    ghost var n;
    r, n := FirstFreeSuffix(target, base, ext);
  }

  /** The importer's options (`ImportOptions`). */
  datatype ImportOptions = ImportOptions(
    notesDirectory: String,
    attachmentsDirectory: String,
    overwriteOnReimport: bool,
    customTemplatePath: Option<String>)

  /** Inside the notes folder: the folder itself or a path below it; no path
      is inside the empty folder. */
  predicate InFolder(path: String, dir: String) {
    dir != [] && (path == dir || StartsWith(path, dir + "/"))
  }

  /** The listed notes inside the notes folder, in listing order. */
  function Preferred(files: seq<String>, dir: String): (r: seq<String>)
    ensures forall p :: p in r <==> p in files && InFolder(p, dir)
    ensures |r| <= |files|
  {
    if files == [] then []
    else
      var init := files[..|files| - 1];
      var last := files[|files| - 1];
      assert files == init + [last];
      Preferred(init, dir) + if InFolder(last, dir) then [last] else []
  }

  /** The listed notes outside the notes folder, in listing order. */
  function Fallback(files: seq<String>, dir: String): (r: seq<String>)
    ensures forall p :: p in r <==> p in files && !InFolder(p, dir)
    ensures |r| <= |files|
  {
    if files == [] then []
    else
      var init := files[..|files| - 1];
      var last := files[|files| - 1];
      assert files == init + [last];
      Fallback(init, dir) + if InFolder(last, dir) then [] else [last]
  }

  /** Every listed note is a candidate exactly once. */
  lemma {:induction false} CandidatesArePermutation(files: seq<String>, dir: String)
    ensures multiset(Preferred(files, dir) + Fallback(files, dir)) == multiset(files)
    decreases |files|
  {
    if files != [] {
      var init := files[..|files| - 1];
      var last := files[|files| - 1];
      assert files == init + [last];
      CandidatesArePermutation(init, dir);
    }
  }

  /** The candidates inside the notes folder come before all others. */
  lemma PreferredFirst(files: seq<String>, dir: String)
    ensures var c := Preferred(files, dir) + Fallback(files, dir);
            forall i, j :: 0 <= i < j < |c| && InFolder(c[j], dir) ==> InFolder(c[i], dir)
  {
    var p := Preferred(files, dir);
    var f := Fallback(files, dir);
    var c := p + f;
    assert forall j :: |p| <= j < |c| ==> c[j] == f[j - |p|] && c[j] in f;
    assert forall i :: 0 <= i < |p| ==> c[i] == p[i] && c[i] in p;
  }

  /** One more listed note extends one of the two lists. */
  lemma PartitionStep(files: seq<String>, dir: String, k: nat)
    requires k < |files|
    ensures Preferred(files[..k + 1], dir) == Preferred(files[..k], dir) + if InFolder(files[k], dir) then [files[k]] else []
    ensures Fallback(files[..k + 1], dir) == Fallback(files[..k], dir) + if InFolder(files[k], dir) then [] else [files[k]]
  {
    assert files[..k + 1][..k] == files[..k];
  }

  /** The text at `path` is readable and `readId` finds `id` in it. The
      search below is stated for any reader of the id, so that its proofs
      do not depend on how the front matter is parsed. */
  predicate Carries(files: map<String, FileEntry>, path: String, id: String, readId: String -> Option<String>) {
    TextAt(files, path).Success? && readId(TextAt(files, path).value) == Some(id)
  }

  /** The text at `path` is readable and carries `id` in its front matter. */
  predicate HasId(files: map<String, FileEntry>, path: String, id: String) {
    Carries(files, path, id, ExtractConversationId)
  }

  /** The candidate loop: the first candidate carrying `id`; a candidate
      that cannot be read as text before that ends the search with its
      error. */
  function FirstCarrying(files: map<String, FileEntry>, candidates: seq<String>, id: String, readId: String -> Option<String>)
    : (r: Result<Option<String>>)
    ensures r.Success? && r.value.Some? ==> r.value.value in candidates && Carries(files, r.value.value, id, readId)
    ensures r == Success(None) ==> forall p :: p in candidates ==> TextAt(files, p).Success? && !Carries(files, p, id, readId)
    ensures r.Failure? ==> exists p :: p in candidates && TextAt(files, p) == Failure(r.error)
  {
    if candidates == [] then Success(None)
    else
      var rest := FirstCarrying(files, candidates[1..], id, readId);
      assert forall p :: p in candidates <==> p == candidates[0] || p in candidates[1..];
      if TextAt(files, candidates[0]).Failure? then Failure(TextAt(files, candidates[0]).error)
      else if Carries(files, candidates[0], id, readId) then Success(Some(candidates[0]))
      else rest
  }

  /** The search with the front-matter reader of `extractConversationId`. */
  function FirstWithId(files: map<String, FileEntry>, candidates: seq<String>, id: String): Result<Option<String>> {
    FirstCarrying(files, candidates, id, ExtractConversationId)
  }

  /** A search that ends at another note passes over the first one. */
  lemma FirstCarryingSkip(files: map<String, FileEntry>, candidates: seq<String>, id: String, readId: String -> Option<String>, p: String)
    requires candidates != [] && candidates[0] != p
    requires FirstCarrying(files, candidates, id, readId) == Success(Some(p))
    ensures TextAt(files, candidates[0]).Success? && !Carries(files, candidates[0], id, readId)
    ensures FirstCarrying(files, candidates[1..], id, readId) == Success(Some(p))
  {
  }

  /** A found note is preceded only by readable notes without the id. */
  lemma {:induction false} FirstCarryingIsFirst(files: map<String, FileEntry>, candidates: seq<String>, id: String,
                                                readId: String -> Option<String>, k: nat, j: nat)
    requires j < k < |candidates| && FirstCarrying(files, candidates, id, readId) == Success(Some(candidates[k]))
    requires forall i :: 0 <= i < k ==> candidates[i] != candidates[k]
    ensures TextAt(files, candidates[j]).Success? && !Carries(files, candidates[j], id, readId)
    decreases j
  {
    if j == 0 {
      FirstCarryingSkip(files, candidates, id, readId, candidates[k]);
    } else {
      DistinctBeforeTail(candidates, k);
      FirstCarryingSkip(files, candidates, id, readId, candidates[k]);
      FirstCarryingIsFirst(files, candidates[1..], id, readId, k - 1, j - 1);
      assert candidates[1..][j - 1] == candidates[j];
    }
  }

  /** One step of the candidate loop, as `FirstCarrying` takes it. */
  lemma FirstCarryingStep(files: map<String, FileEntry>, candidates: seq<String>, id: String, readId: String -> Option<String>, k: nat)
    requires k < |candidates|
    ensures TextAt(files, candidates[k]).Failure? ==>
              FirstCarrying(files, candidates[k..], id, readId) == Failure(TextAt(files, candidates[k]).error)
    ensures Carries(files, candidates[k], id, readId) ==>
              FirstCarrying(files, candidates[k..], id, readId) == Success(Some(candidates[k]))
    ensures TextAt(files, candidates[k]).Success? && !Carries(files, candidates[k], id, readId) ==>
              FirstCarrying(files, candidates[k..], id, readId) == FirstCarrying(files, candidates[k + 1..], id, readId)
  {
    assert candidates[k..][0] == candidates[k];
    assert candidates[k..][1..] == candidates[k + 1..];
  }

  /** Dropping the head keeps the later elements distinct from the one at `k`. */
  lemma DistinctBeforeTail<T>(c: seq<T>, k: nat)
    requires 0 < k < |c| && forall i :: 0 <= i < k ==> c[i] != c[k]
    ensures c[0] != c[k] && c[1..][k - 1] == c[k]
    ensures forall i :: 0 <= i < k - 1 ==> c[1..][i] != c[1..][k - 1]
  {
  }

  /** The first loop of `findExistingNoteByConversationId`: the Markdown
      files inside the notes folder, then the others, each in listing order. */
  method PartitionCandidates(files: seq<String>, dir: String) returns (candidates: seq<String>)
    ensures candidates == Preferred(files, dir) + Fallback(files, dir)
  {
    var preferred: seq<String> := [];
    var fallback: seq<String> := [];
    for k := 0 to |files|
      invariant preferred == Preferred(files[..k], dir)
      invariant fallback == Fallback(files[..k], dir)
    {
      PartitionStep(files, dir, k);
      var file := files[k];
      if dir == [] {
        assert !InFolder(file, dir);
        fallback := fallback + [file];
      } else if file == dir || StartsWith(file, dir + "/") {
        assert InFolder(file, dir);
        preferred := preferred + [file];
      } else {
        assert !InFolder(file, dir);
        fallback := fallback + [file];
      }
      assert preferred == Preferred(files[..k + 1], dir);
      assert fallback == Fallback(files[..k + 1], dir);
    }
    assert files[..|files|] == files;
    candidates := if |preferred| > 0 then preferred + fallback else fallback;
  }

  /** The second loop of `findExistingNoteByConversationId`: read each
      candidate in turn and stop at the first carrying the id, or at the
      first that cannot be read. */
  method SearchCandidates(target: ImportTarget, candidates: seq<String>, conversationId: String)
    returns (r: Result<Option<String>>)
    ensures r == FirstWithId(target.files, candidates, conversationId)
  {
    for k := 0 to |candidates|
      invariant FirstWithId(target.files, candidates, conversationId) == FirstWithId(target.files, candidates[k..], conversationId)
    {
      FirstCarryingStep(target.files, candidates, conversationId, ExtractConversationId, k);
      var content := target.ReadText(candidates[k]);
      if content.Failure? {
        return Failure(content.error);
      }
      var found := ExtractConversationId(content.value);
      if found == Some(conversationId) {
        assert HasId(target.files, candidates[k], conversationId);
        return Success(Some(candidates[k]));
      }
      assert !HasId(target.files, candidates[k], conversationId);
    }
    return Success(None);
  }

  /** `findExistingNoteByConversationId`: the notes are read in candidate
      order (inside the notes folder first) and the first whose front matter
      carries the id is returned; a note that cannot be read is an error. */
  method FindExistingNoteByConversationId(target: ImportTarget, conversationId: String, notesDirectory: String)
    returns (r: Result<Option<String>>)
    requires target.Valid()
    ensures var files := target.ListMarkdownFiles();
            var dir := NormalizeVaultPath(notesDirectory);
            r == FirstWithId(target.files, Preferred(files, dir) + Fallback(files, dir), conversationId)
  {
    var files := target.ListMarkdownFiles();
    var dir := NormalizeVaultPath(notesDirectory);
    var candidates := PartitionCandidates(files, dir);
    r := SearchCandidates(target, candidates, conversationId);
  }

  /** The outcome of `upsertNote`. */
  datatype UpsertResult = UpsertResult(path: String, skipped: bool)

  /** The path `upsertNote` asks for: the conversation's file name in the
      notes folder, normalised. */
  function RequestedPath(notesDirectory: String, conversation: ConversationRecord): String {
    NormalizeVaultPath(VaultPath.Join(notesDirectory, BuildConversationFileName(conversation.title, conversation.conversationId)))
  }

  /** The search `findExistingNoteByConversationId` makes in a vault holding
      `files`, listed in `order`. */
  function SearchById(files: map<String, FileEntry>, order: seq<String>, notesDirectory: String, id: String)
    : (r: Result<Option<String>>)
    ensures r.Success? && r.value.Some? ==> r.value.value in files && EndsWith(r.value.value, ".md") && HasId(files, r.value.value, id)
    ensures r.Failure? ==> exists p :: p in MarkdownPaths(order) && TextAt(files, p) == Failure(r.error)
  {
    var md := MarkdownPaths(order);
    var dir := NormalizeVaultPath(notesDirectory);
    var c := Preferred(md, dir) + Fallback(md, dir);
    assert forall p :: p in c ==> p in md;
    FirstWithId(files, c, id)
  }

  /** `upsertNote`: a note at the requested path, or else one found by its
      conversation id, is skipped when overwriting is off and rewritten in
      place when it is on; a failed read during the search is the error;
      otherwise the note is written at the requested path, which is then
      free. The notes folder is created before the requested path is looked
      up. A skip and an error write nothing; any other outcome writes exactly
      the returned path. */
  method UpsertNote(target: ImportTarget, options: ImportOptions, conversation: ConversationRecord, markdown: String)
    returns (r: Result<UpsertResult>)
    requires target.Valid()
    modifies target
    ensures target.Valid()
    ensures old(target.folders) <= target.folders
    ensures r.Failure? || r.value.skipped ==> target.files == old(target.files)
    ensures r.Success? && !r.value.skipped ==> target.files == old(target.files)[r.value.path := TextFile(markdown)]
    ensures r.Success? && r.value.skipped ==> !options.overwriteOnReimport
    ensures r.Success? && !options.overwriteOnReimport && !r.value.skipped ==> r.value.path !in old(target.files)
    ensures r.Success? && r.value.path != RequestedPath(options.notesDirectory, conversation) && r.value.path in old(target.files) ==>
              HasId(old(target.files), r.value.path, conversation.conversationId)
    ensures old(target.Exists(RequestedPath(options.notesDirectory, conversation))) ==>
              r == Success(UpsertResult(RequestedPath(options.notesDirectory, conversation), !options.overwriteOnReimport))
    ensures var req := RequestedPath(options.notesDirectory, conversation);
            var mid := old(target.folders) + Created(old(target.files), FolderChain(NormalizeVaultPath(options.notesDirectory)));
            var found := SearchById(old(target.files), old(target.order), options.notesDirectory, conversation.conversationId);
            && (req in old(target.files) || req in mid ==> r == Success(UpsertResult(req, !options.overwriteOnReimport)))
            && (req !in old(target.files) && req !in mid ==>
                  && (found.Failure? ==> r == Failure(found.error))
                  && (found.Success? && found.value.Some? ==>
                        r == Success(UpsertResult(found.value.value, !options.overwriteOnReimport)))
                  && (found == Success(None) ==> r == Success(UpsertResult(req, false))))
    ensures r.Failure? ==> exists p :: && p in old(target.files) && EndsWith(p, ".md") && !old(target.files)[p].TextFile?
                                       && r.error == "Missing text: " + p
  {
    var fileName := BuildConversationFileName(conversation.title, conversation.conversationId);
    var requestedPath := NormalizeVaultPath(VaultPath.Join(options.notesDirectory, fileName));
    EnsureVaultFolder(target, options.notesDirectory);
    var existing := target.Exists(requestedPath);
    if existing {
      if !options.overwriteOnReimport {
        return Success(UpsertResult(requestedPath, true));
      }
      target.Write(requestedPath, TextFile(markdown));
      return Success(UpsertResult(requestedPath, false));
    }
    var byIdPath :- FindExistingNoteByConversationId(target, conversation.conversationId, options.notesDirectory);
    if byIdPath.Some? {
      if !options.overwriteOnReimport {
        return Success(UpsertResult(byIdPath.value, true));
      }
      target.Write(byIdPath.value, TextFile(markdown));
      return Success(UpsertResult(byIdPath.value, false));
    }
    var finalPath := EnsureUniqueVaultPath(target, requestedPath);
    EnsureVaultFolder(target, VaultPath.Dirname(finalPath));
    target.Write(finalPath, TextFile(markdown));
    return Success(UpsertResult(finalPath, false));
  }

  /** A source path the importer copies from: present and non-empty. */
  predicate Truthy(s: Option<String>) {
    s.Some? && s.value != []
  }

  /** `relativeLinkPath` inside the wiki link: an embed for images, a plain
      link otherwise. */
  function LinkFor(mimeType: Option<String>, vaultPath: String): String {
    if IsImageMimeType(mimeType) then "![[" + VaultPath.Normalize(vaultPath) + "]]"
    else "[[" + VaultPath.Normalize(vaultPath) + "]]"
  }

  /** The link of a recorded vault path names that very path: the path is
      already normalised, so normalising it again changes nothing. */
  lemma LinkNamesVaultPath(mimeType: Option<String>, written: String)
    ensures var v := VaultPath.Normalize(written);
            LinkFor(mimeType, v) == (if IsImageMimeType(mimeType) then "![[" else "[[") + v + "]]"
  {
    VaultPath.NormalizeIdempotent(written);
  }

  /** The attachment with its vault path and wiki link filled in. */
  function Enrich(a: Attachment, vaultPath: String): Attachment {
    a.(vaultPath := Some(vaultPath), obsidianLink := Some(LinkFor(a.mimeType, vaultPath)))
  }

  /** How `mergeConversationAttachments` leaves one attachment, given the
      final copy map: one without a source path is untouched; any other has
      its vault path and link filled in, and a non-empty vault path is the
      one recorded for its id, so attachments sharing an id share one copy. */
  predicate AttachmentMerged(a: Attachment, b: Attachment, copied: map<String, String>) {
    if Truthy(a.sourcePath) then
      && a.id in copied && b.vaultPath.Some? && b == Enrich(a, b.vaultPath.value)
      && (b.vaultPath.value != [] ==> b.vaultPath.value == copied[a.id])
    else b == a
  }

  predicate AttachmentsMerged(atts: seq<Attachment>, merged: seq<Attachment>, copied: map<String, String>) {
    |merged| == |atts| && forall j :: 0 <= j < |atts| ==> AttachmentMerged(atts[j], merged[j], copied)
  }

  /** Each message keeps everything but its attachments, which are merged. */
  predicate MessagesMerged(messages: seq<Message>, merged: seq<Message>, copied: map<String, String>) {
    && |merged| == |messages|
    && forall i :: 0 <= i < |messages| ==>
         merged[i] == messages[i].(attachments := merged[i].attachments)
         && AttachmentsMerged(messages[i].attachments, merged[i].attachments, copied)
  }

  /** The copy map only gains entries, and a non-empty entry never changes. */
  predicate Grows(before: map<String, String>, after: map<String, String>) {
    forall id :: id in before ==> id in after && (before[id] != [] ==> after[id] == before[id])
  }

  lemma AttachmentsMergedGrows(atts: seq<Attachment>, merged: seq<Attachment>, before: map<String, String>, after: map<String, String>)
    requires AttachmentsMerged(atts, merged, before) && Grows(before, after)
    ensures AttachmentsMerged(atts, merged, after)
  {
    forall j | 0 <= j < |atts|
      ensures AttachmentMerged(atts[j], merged[j], after)
    {
      assert AttachmentMerged(atts[j], merged[j], before);
    }
  }

  lemma MessagesMergedGrows(messages: seq<Message>, merged: seq<Message>, before: map<String, String>, after: map<String, String>)
    requires MessagesMerged(messages, merged, before) && Grows(before, after)
    ensures MessagesMerged(messages, merged, after)
  {
    forall i | 0 <= i < |messages|
      ensures AttachmentsMerged(messages[i].attachments, merged[i].attachments, after)
    {
      AttachmentsMergedGrows(messages[i].attachments, merged[i].attachments, before, after);
    }
  }

  /** Every recorded copy is a binary file in the vault at the path whose
      normal form was recorded. */
  ghost predicate CopiesInVault(copied: map<String, String>, written: map<String, String>, files: map<String, FileEntry>) {
    forall id :: id in copied ==>
      && id in written && written[id] in files && files[written[id]].BinaryFile?
      && copied[id] == VaultPath.Normalize(written[id])
  }

  /** Every file that is new or changed since `before` is one of `writes`,
      and holds binary data; no file disappears. */
  ghost predicate ChangedOnlyAt(before: map<String, FileEntry>, files: map<String, FileEntry>, writes: set<String>) {
    && (forall p :: p in before ==> p in files)
    && (forall p :: p in files ==> (p in before && files[p] == before[p]) || (p in writes && files[p].BinaryFile?))
  }

  /** Every file of `before` is still there with the same content. */
  ghost predicate KeepsFiles(before: map<String, FileEntry>, files: map<String, FileEntry>) {
    forall p :: p in before ==> p in files && files[p] == before[p]
  }

  /** The path an attachment is first tried at: its file name inside the
      attachments folder, or alone when there is none. */
  function InitialAttachmentPath(root: String, a: Attachment): String
    requires a.sourcePath.Some?
  {
    var fileName := BuildAttachmentFileName(a.name, a.sourcePath.value, a.id);
    if root != [] then VaultPath.Join(root, fileName) else fileName
  }

  /** One copy of `mergeConversationAttachments`: the source file's bytes go
      to the initial path when it is free or overwriting is on, and to the
      first free suffixed path otherwise; the result is the normalised path
      written. Only a missing source file fails, before anything changes. */
  method CopyAttachment(source: ExportSource, target: ImportTarget, overwrite: bool, root: String, a: Attachment)
    returns (r: Result<String>, ghost final: String)
    requires target.Valid() && Truthy(a.sourcePath)
    modifies target
    ensures target.Valid() && old(target.folders) <= target.folders
    ensures r.Success? <==> a.sourcePath.value in source.binaries
    ensures r.Failure? ==> target.files == old(target.files) && r.error == "Missing binary: " + a.sourcePath.value
    ensures r.Success? ==> && target.files == old(target.files)[final := BinaryFile(source.binaries[a.sourcePath.value])]
                           && r.value == VaultPath.Normalize(final)
    ensures r.Success? && (overwrite || !old(target.Exists(InitialAttachmentPath(root, a)))) ==>
              final == InitialAttachmentPath(root, a)
    ensures r.Success? && !overwrite ==> !old(target.Exists(final))
    ensures r.Success? && !overwrite && old(target.Exists(InitialAttachmentPath(root, a))) ==>
              var (base, ext) := SplitAtLastDot(InitialAttachmentPath(root, a));
              exists n :: n >= 2 && final == Suffixed(base, n, ext)
                          && forall j :: 2 <= j < n ==> old(target.Exists(Suffixed(base, j, ext)))
  {
    var sourcePath := a.sourcePath.value;
    var fileName := BuildAttachmentFileName(a.name, sourcePath, a.id);
    var initialPath := if root != [] then VaultPath.Join(root, fileName) else fileName;
    var finalPath := initialPath;
    if target.Exists(initialPath) && !overwrite {
      finalPath := EnsureUniqueFilePath(target, initialPath);
    }
    var data := source.ReadBinary(sourcePath);
    if data.Failure? {
      return Failure(data.error), finalPath;
    }
    EnsureVaultFolder(target, VaultPath.Dirname(finalPath));
    target.Write(finalPath, BinaryFile(data.value));
    return Success(VaultPath.Normalize(finalPath)), finalPath;
  }

  /** A copy of an attachment whose id has no non-empty copy yet, recorded
      under its id. */
  method CopyAndRecord(source: ExportSource, target: ImportTarget, overwrite: bool, root: String, a: Attachment,
                       copied: map<String, String>, ghost written: map<String, String>)
    returns (r: Result<String>, ghost final: String)
    requires target.Valid() && Truthy(a.sourcePath)
    requires CopiesInVault(copied, written, target.files) && (a.id !in copied || copied[a.id] == [])
    modifies target
    ensures target.Valid() && old(target.folders) <= target.folders
    ensures r.Failure? ==> target.files == old(target.files) && r.error == "Missing binary: " + a.sourcePath.value
                           && a.sourcePath.value !in source.binaries
    ensures r.Success? ==> && Grows(copied, copied[a.id := r.value])
                           && CopiesInVault(copied[a.id := r.value], written[a.id := final], target.files)
                           && ChangedOnlyAt(old(target.files), target.files, {final})
    ensures r.Success? && !overwrite ==> KeepsFiles(old(target.files), target.files)
  {
    r, final := CopyAttachment(source, target, overwrite, root, a);
    if r.Success? {
      CopyKeepsBookkeeping(copied, written, old(target.files), target.files, a.id, r.value, final);
    }
  }

  /** Recording a new copy keeps the copy map growing and every copy in the
      vault. */
  lemma CopyKeepsBookkeeping(copied: map<String, String>, written: map<String, String>,
                             before: map<String, FileEntry>, after: map<String, FileEntry>,
                             id: String, v: String, final: String)
    requires CopiesInVault(copied, written, before)
    requires id !in copied || copied[id] == []
    requires final in after && after[final].BinaryFile? && after == before[final := after[final]]
    requires v == VaultPath.Normalize(final)
    ensures Grows(copied, copied[id := v])
    ensures CopiesInVault(copied[id := v], written[id := final], after)
    ensures ChangedOnlyAt(before, after, {final})
  {
    CopiesInVaultAfterWrite(copied, written, before, after, id, v, final);
    ChangedOnlyAtWrite(before, after, final);
  }

  lemma CopiesInVaultAfterWrite(copied: map<String, String>, written: map<String, String>,
                                before: map<String, FileEntry>, after: map<String, FileEntry>,
                                id: String, v: String, final: String)
    requires CopiesInVault(copied, written, before)
    requires final in after && after[final].BinaryFile? && after == before[final := after[final]]
    requires v == VaultPath.Normalize(final)
    ensures CopiesInVault(copied[id := v], written[id := final], after)
  {
    var c := copied[id := v];
    var w := written[id := final];
    forall k | k in c
      ensures k in w && w[k] in after && after[w[k]].BinaryFile? && c[k] == VaultPath.Normalize(w[k])
    {
      if k != id {
        assert k in copied;
        assert w[k] == written[k];
      }
    }
  }

  lemma ChangedOnlyAtWrite(before: map<String, FileEntry>, after: map<String, FileEntry>, final: String)
    requires final in after && after[final].BinaryFile? && after == before[final := after[final]]
    ensures ChangedOnlyAt(before, after, {final})
  {
  }

  lemma ChangedOnlyAtTrans(start: map<String, FileEntry>, mid: map<String, FileEntry>, files: map<String, FileEntry>,
                           writes0: set<String>, writes1: set<String>)
    requires ChangedOnlyAt(start, mid, writes0) && ChangedOnlyAt(mid, files, writes1)
    ensures ChangedOnlyAt(start, files, writes0 + writes1)
  {
  }

  lemma KeepsFilesTrans(start: map<String, FileEntry>, mid: map<String, FileEntry>, files: map<String, FileEntry>)
    requires KeepsFiles(start, mid) && KeepsFiles(mid, files)
    ensures KeepsFiles(start, files)
  {
  }

  lemma GrowsTrans(c0: map<String, String>, c1: map<String, String>, c2: map<String, String>)
    requires Grows(c0, c1) && Grows(c1, c2)
    ensures Grows(c0, c2)
  {
  }

  /** A merged attachment appended to merged ones. */
  lemma AttachmentsMergedSnoc(atts: seq<Attachment>, merged: seq<Attachment>, copied: map<String, String>, j: nat, b: Attachment)
    requires j < |atts| && AttachmentsMerged(atts[..j], merged, copied) && AttachmentMerged(atts[j], b, copied)
    ensures AttachmentsMerged(atts[..j + 1], merged + [b], copied)
  {
    assert atts[..j + 1] == atts[..j] + [atts[j]];
  }

  /** An attachment with a source path, enriched with its id's copy. */
  lemma EnrichMerged(a: Attachment, copied: map<String, String>)
    requires Truthy(a.sourcePath) && a.id in copied
    ensures AttachmentMerged(a, Enrich(a, copied[a.id]), copied)
  {
  }

  /** Every attachment of `atts` with a source path has its source file in
      the export. */
  predicate SourcesPresent(atts: seq<Attachment>, binaries: map<String, seq<bv8>>) {
    forall j :: 0 <= j < |atts| && Truthy(atts[j].sourcePath) ==> atts[j].sourcePath.value in binaries
  }

  /** The error of a missing source file: `atts[j]` has a source path that
      is not in the export, and `e` names it. */
  predicate MissingSourceAt(atts: seq<Attachment>, j: int, binaries: map<String, seq<bv8>>, e: String) {
    && 0 <= j < |atts| && Truthy(atts[j].sourcePath)
    && atts[j].sourcePath.value !in binaries && e == "Missing binary: " + atts[j].sourcePath.value
  }

  /** The inner loop of `mergeConversationAttachments`, over one message's
      attachments: an attachment without a source path is left as it is;
      one whose id has no non-empty copy yet is copied; each gets the
      recorded vault path and its link. */
  method MergeMessageAttachments(source: ExportSource, target: ImportTarget, overwrite: bool, root: String,
                                 atts: seq<Attachment>, copied0: map<String, String>, ghost written0: map<String, String>)
    returns (r: Result<seq<Attachment>>, copied: map<String, String>,
             ghost written: map<String, String>, ghost writes: set<String>)
    requires target.Valid() && CopiesInVault(copied0, written0, target.files)
    modifies target
    ensures target.Valid() && old(target.folders) <= target.folders
    ensures Grows(copied0, copied) && CopiesInVault(copied, written, target.files)
    ensures ChangedOnlyAt(old(target.files), target.files, writes)
    ensures !overwrite ==> KeepsFiles(old(target.files), target.files)
    ensures r.Success? ==> AttachmentsMerged(atts, r.value, copied)
    ensures r.Failure? ==> exists j :: MissingSourceAt(atts, j, source.binaries, r.error)
    ensures SourcesPresent(atts, source.binaries) ==> r.Success?
  {
    copied, written, writes := copied0, written0, {};
    var merged: seq<Attachment> := [];
    for j := 0 to |atts|
      invariant target.Valid() && old(target.folders) <= target.folders
      invariant Grows(copied0, copied) && CopiesInVault(copied, written, target.files)
      invariant ChangedOnlyAt(old(target.files), target.files, writes)
      invariant !overwrite ==> KeepsFiles(old(target.files), target.files)
      invariant AttachmentsMerged(atts[..j], merged, copied)
    {
      var a := atts[j];
      if !Truthy(a.sourcePath) {
        AttachmentsMergedSnoc(atts, merged, copied, j, a);
        merged := merged + [a];
        continue;
      }
      if a.id !in copied || copied[a.id] == [] {
        ghost var filesBefore := target.files;
        var copy, final := CopyAndRecord(source, target, overwrite, root, a, copied, written);
        if copy.Failure? {
          assert MissingSourceAt(atts, j, source.binaries, copy.error);
          return Failure(copy.error), copied, written, writes;
        }
        ChangedOnlyAtTrans(old(target.files), filesBefore, target.files, writes, {final});
        if !overwrite {
          KeepsFilesTrans(old(target.files), filesBefore, target.files);
        }
        GrowsTrans(copied0, copied, copied[a.id := copy.value]);
        AttachmentsMergedGrows(atts[..j], merged, copied, copied[a.id := copy.value]);
        copied := copied[a.id := copy.value];
        written := written[a.id := final];
        writes := writes + {final};
      }
      EnrichMerged(a, copied);
      AttachmentsMergedSnoc(atts, merged, copied, j, Enrich(a, copied[a.id]));
      merged := merged + [Enrich(a, copied[a.id])];
    }
    assert atts[..|atts|] == atts;
    return Success(merged), copied, written, writes;
  }

  /** A message with merged attachments appended to merged ones. */
  lemma MessagesMergedSnoc(messages: seq<Message>, merged: seq<Message>, copied: map<String, String>, i: nat, atts: seq<Attachment>)
    requires i < |messages| && MessagesMerged(messages[..i], merged, copied)
    requires AttachmentsMerged(messages[i].attachments, atts, copied)
    ensures MessagesMerged(messages[..i + 1], merged + [messages[i].(attachments := atts)], copied)
  {
    assert messages[..i + 1] == messages[..i] + [messages[i]];
  }

  /** The outer loop of `mergeConversationAttachments`, over the messages,
      with one copy map for the whole conversation. */
  method MergeMessages(source: ExportSource, target: ImportTarget, overwrite: bool, root: String, messages: seq<Message>)
    returns (r: Result<seq<Message>>, ghost copied: map<String, String>,
             ghost written: map<String, String>, ghost writes: set<String>)
    requires target.Valid()
    modifies target
    ensures target.Valid() && old(target.folders) <= target.folders
    ensures CopiesInVault(copied, written, target.files)
    ensures ChangedOnlyAt(old(target.files), target.files, writes)
    ensures !overwrite ==> KeepsFiles(old(target.files), target.files)
    ensures r.Success? ==> MessagesMerged(messages, r.value, copied)
    ensures r.Failure? ==> exists i, j :: 0 <= i < |messages| && MissingSourceAt(messages[i].attachments, j, source.binaries, r.error)
    ensures (forall i :: 0 <= i < |messages| ==> SourcesPresent(messages[i].attachments, source.binaries)) ==> r.Success?
  {
    var copiedById: map<String, String> := map[];
    written, writes := map[], {};
    var result: seq<Message> := [];
    for i := 0 to |messages|
      invariant target.Valid() && old(target.folders) <= target.folders
      invariant CopiesInVault(copiedById, written, target.files)
      invariant ChangedOnlyAt(old(target.files), target.files, writes)
      invariant !overwrite ==> KeepsFiles(old(target.files), target.files)
      invariant MessagesMerged(messages[..i], result, copiedById)
    {
      var message := messages[i];
      ghost var filesBefore := target.files;
      var merged, after;
      ghost var writesNow;
      merged, after, written, writesNow :=
        MergeMessageAttachments(source, target, overwrite, root, message.attachments, copiedById, written);
      ChangedOnlyAtTrans(old(target.files), filesBefore, target.files, writes, writesNow);
      writes := writes + writesNow;
      if !overwrite {
        KeepsFilesTrans(old(target.files), filesBefore, target.files);
      }
      if merged.Failure? {
        ghost var j :| MissingSourceAt(message.attachments, j, source.binaries, merged.error);
        assert MissingSourceAt(messages[i].attachments, j, source.binaries, merged.error);
        return Failure(merged.error), after, written, writes;
      }
      MessagesMergedGrows(messages[..i], result, copiedById, after);
      MessagesMergedSnoc(messages, result, after, i, merged.value);
      copiedById := after;
      result := result + [message.(attachments := merged.value)];
    }
    assert messages[..|messages|] == messages;
    return Success(result), copiedById, written, writes;
  }

  /** Every attachment of the conversation with a source path has its
      source file in the export. */
  predicate AllSourcesPresent(conversation: ConversationRecord, binaries: map<String, seq<bv8>>) {
    forall i :: 0 <= i < |conversation.messages| ==> SourcesPresent(conversation.messages[i].attachments, binaries)
  }

  /** `mergeConversationAttachments`: the attachments folder is created when
      one is configured; then every attachment with a source path is copied
      once per id and given its vault path and link. The result is the
      conversation with its attachments merged; a missing source file is an
      error. Without overwriting no existing file changes; otherwise only
      copied files do. */
  method MergeConversationAttachments(source: ExportSource, target: ImportTarget, options: ImportOptions,
                                      conversation: ConversationRecord)
    returns (r: Result<ConversationRecord>, ghost copied: map<String, String>,
             ghost written: map<String, String>, ghost writes: set<String>)
    requires target.Valid()
    modifies target
    ensures target.Valid() && old(target.folders) <= target.folders
    ensures CopiesInVault(copied, written, target.files)
    ensures ChangedOnlyAt(old(target.files), target.files, writes)
    ensures !options.overwriteOnReimport ==> KeepsFiles(old(target.files), target.files)
    ensures r.Success? ==> r.value == conversation.(messages := r.value.messages)
                           && MessagesMerged(conversation.messages, r.value.messages, copied)
    ensures r.Failure? ==> exists i, j :: 0 <= i < |conversation.messages|
                                         && MissingSourceAt(conversation.messages[i].attachments, j, source.binaries, r.error)
    ensures AllSourcesPresent(conversation, source.binaries) ==> r.Success?
  {
    var root := NormalizeVaultPath(options.attachmentsDirectory);
    if root != [] {
      EnsureVaultFolder(target, root);
    }
    var messages;
    messages, copied, written, writes :=
      MergeMessages(source, target, options.overwriteOnReimport, root, conversation.messages);
    if messages.Failure? {
      return Failure(messages.error), copied, written, writes;
    }
    r := Success(conversation.(messages := messages.value));
  }

  /** `loadTemplate`: the default template when no custom path is set or
      the path is blank; otherwise the text at the trimmed path, whose
      absence is an error. */
  function LoadTemplate(source: ExportSource, options: ImportOptions): (r: Result<String>)
    ensures options.customTemplatePath.None? || AllSpace(options.customTemplatePath.value) ==>
              r == Success(DefaultMarkdownTemplate)
    ensures options.customTemplatePath.Some? && !AllSpace(options.customTemplatePath.value) ==>
              var path := Trim(options.customTemplatePath.value);
              && path != []
              && (r.Success? <==> path in source.texts)
              && (r.Success? ==> r.value == source.texts[path])
              && (r.Failure? ==> r.error == "Missing text: " + path)
  {
    var customPath := if options.customTemplatePath.Some? then Trim(options.customTemplatePath.value) else [];
    TrimEmptyIffBlank(options.customTemplatePath.GetOr([]));
    if customPath == [] then Success(DefaultMarkdownTemplate) else source.ReadText(customPath)
  }

  /** The outcome of `importConversationRecords`. */
  datatype ImportResult = ImportResult(imported: nat, skipped: nat, errors: seq<String>)

  /** Writing a path that was not there keeps every file that was. */
  lemma KeepsFilesOnNewPath(before: map<String, FileEntry>, path: String, entry: FileEntry)
    requires path !in before
    ensures KeepsFiles(before, before[path := entry])
  {
  }

  /** The body of the import loop for one conversation: merge its
      attachments, render it, and write or skip its note. A written note is
      a post-processed rendering; without overwriting no existing file
      changes. */
  method ImportOne(source: ExportSource, target: ImportTarget, options: ImportOptions, template: String,
                   conversation: ConversationRecord, render: (String, ConversationRecord) -> String)
    returns (r: Result<UpsertResult>, ghost rendered: ConversationRecord, ghost copied: map<String, String>)
    requires target.Valid()
    modifies target
    ensures target.Valid() && old(target.folders) <= target.folders
    ensures !options.overwriteOnReimport ==> KeepsFiles(old(target.files), target.files)
    ensures r.Success? && !r.value.skipped ==>
              && r.value.path in target.files && target.files[r.value.path].TextFile?
              && PostProcess(target.files[r.value.path].content) == target.files[r.value.path].content
    ensures r.Success? ==> rendered == conversation.(messages := rendered.messages)
                           && MessagesMerged(conversation.messages, rendered.messages, copied)
    ensures r.Success? && !r.value.skipped ==>
              target.files[r.value.path] == TextFile(RenderConversationMarkdown(rendered, template, render))
    ensures r.Failure? ==> || (exists i, j :: 0 <= i < |conversation.messages|
                                            && MissingSourceAt(conversation.messages[i].attachments, j, source.binaries, r.error))
                           || (exists p :: EndsWith(p, ".md") && r.error == "Missing text: " + p)
    ensures r.Failure? && AllSourcesPresent(conversation, source.binaries) ==>
              exists p :: EndsWith(p, ".md") && r.error == "Missing text: " + p
  {
    ghost var start := target.files;
    var merged;
    ghost var written, writes;
    merged, copied, written, writes := MergeConversationAttachments(source, target, options, conversation);
    rendered := conversation;
    if merged.Failure? {
      return Failure(merged.error), rendered, copied;
    }
    rendered := merged.value;
    var markdown := RenderConversationMarkdown(merged.value, template, render);
    ghost var beforeUpsert := target.files;
    r := UpsertNote(target, options, merged.value, markdown);
    if !options.overwriteOnReimport {
      if r.Success? && !r.value.skipped {
        KeepsFilesOnNewPath(beforeUpsert, r.value.path, TextFile(markdown));
      }
      KeepsFilesTrans(start, beforeUpsert, target.files);
    }
  }

  /** The loop of `importConversationRecords`: each conversation is
      imported on its own, a failure becoming an error line `id: message`
      without stopping the rest. Every conversation is counted exactly once,
      as imported, skipped or failed, and the errors follow the order of the
      conversations. Without overwriting no existing file changes. */
  method ImportAll(source: ExportSource, target: ImportTarget, options: ImportOptions, template: String,
                   conversations: seq<ConversationRecord>, render: (String, ConversationRecord) -> String)
    returns (r: ImportResult, ghost failed: seq<nat>)
    requires target.Valid()
    modifies target
    ensures target.Valid() && old(target.folders) <= target.folders
    ensures r.imported + r.skipped + |r.errors| == |conversations|
    ensures |failed| == |r.errors|
    ensures forall e :: 0 <= e < |failed| ==>
              failed[e] < |conversations| && StartsWith(r.errors[e], conversations[failed[e]].conversationId + ": ")
    ensures forall e, f :: 0 <= e < f < |failed| ==> failed[e] < failed[f]
    ensures !options.overwriteOnReimport ==> KeepsFiles(old(target.files), target.files)
  {
    failed := [];
    var errors: seq<String> := [];
    var imported: nat := 0;
    var skipped: nat := 0;
    for k := 0 to |conversations|
      invariant target.Valid() && old(target.folders) <= target.folders
      invariant imported + skipped + |errors| == k
      invariant |failed| == |errors|
      invariant forall e :: 0 <= e < |failed| ==>
                  failed[e] < k && StartsWith(errors[e], conversations[failed[e]].conversationId + ": ")
      invariant forall e, f :: 0 <= e < f < |failed| ==> failed[e] < failed[f]
      invariant !options.overwriteOnReimport ==> KeepsFiles(old(target.files), target.files)
    {
      var conversation := conversations[k];
      ghost var before := target.files;
      var result;
      ghost var rendered, copied;
      result, rendered, copied := ImportOne(source, target, options, template, conversation, render);
      if !options.overwriteOnReimport {
        KeepsFilesTrans(old(target.files), before, target.files);
      }
      if result.Failure? {
        var line := conversation.conversationId + ": " + result.error;
        assert line[..|conversation.conversationId + ": "|] == conversation.conversationId + ": ";
        errors := errors + [line];
        failed := failed + [k];
      } else if result.value.skipped {
        skipped := skipped + 1;
      } else {
        imported := imported + 1;
      }
    }
    return ImportResult(imported, skipped, errors), failed;
  }

  /** `importConversationRecords`: the template is loaded and the notes
      folder created before any conversation, and a template that cannot be
      read fails the whole import before anything changes; otherwise the
      loop above runs. */
  method ImportConversationRecords(source: ExportSource, target: ImportTarget, options: ImportOptions,
                                   conversations: seq<ConversationRecord>,
                                   render: (String, ConversationRecord) -> String)
    returns (r: Result<ImportResult>, ghost failed: seq<nat>)
    requires target.Valid()
    modifies target
    ensures target.Valid() && old(target.folders) <= target.folders
    ensures r.Failure? <==> LoadTemplate(source, options).Failure?
    ensures r.Failure? ==> r.error == LoadTemplate(source, options).error && target.files == old(target.files)
    ensures r.Success? ==> r.value.imported + r.value.skipped + |r.value.errors| == |conversations|
    ensures r.Success? ==> |failed| == |r.value.errors|
    ensures r.Success? ==> forall e :: 0 <= e < |failed| ==>
              failed[e] < |conversations| && StartsWith(r.value.errors[e], conversations[failed[e]].conversationId + ": ")
    ensures r.Success? ==> forall e, f :: 0 <= e < f < |failed| ==> failed[e] < failed[f]
    ensures !options.overwriteOnReimport ==> KeepsFiles(old(target.files), target.files)
  {
    failed := [];
    var template :- LoadTemplate(source, options);
    EnsureVaultFolder(target, options.notesDirectory);
    ghost var afterFolder := target.files;
    var result;
    result, failed := ImportAll(source, target, options, template, conversations, render);
    if !options.overwriteOnReimport {
      KeepsFilesTrans(old(target.files), afterFolder, target.files);
    }
    return Success(result), failed;
  }
}
