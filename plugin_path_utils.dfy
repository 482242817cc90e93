/** File naming in the Obsidian plugin (packages/plugin/src/path-utils.ts).
    `sanitizeFileName`, `buildConversationFileName` and `isImageMimeType`
    are the same code as the core's and are `PathUtils` members here; what
    differs is the extension of a path, which the plugin takes from Node's
    POSIX `path.extname` instead of the core's `extnameFromPath`. */
module PluginPathUtils {
  import opened Strings
  import opened Wrappers
  import opened PathUtils

  /** The path without its trailing run of `/`. */
  function StripTrailingSlashes(p: seq<char>): (r: seq<char>)
    ensures |r| <= |p| && r == p[..|r|]
    ensures forall i :: |r| <= i < |p| ==> p[i] == '/'
    ensures r == [] || r[|r| - 1] != '/'
  {
    if p != [] && p[|p| - 1] == '/' then StripTrailingSlashes(p[..|p| - 1]) else p
  }

  /** The part of `p` after its last `/`. */
  function AfterLastSlash(p: seq<char>): (r: seq<char>)
    ensures EndsWith(p, r) && '/' !in r
    ensures |r| < |p| ==> p[|p| - |r| - 1] == '/'
  {
    if p == [] || p[|p| - 1] == '/' then []
    else
      var r := AfterLastSlash(p[..|p| - 1]) + [p[|p| - 1]];
      assert forall c :: c in r ==> c != '/' by {
        assert forall i :: 0 <= i < |r| - 1 ==> r[i] == AfterLastSlash(p[..|p| - 1])[i];
      }
      r
  }

  /** The base name Node's `extname` looks at: the last `/`-separated
      segment once trailing slashes are dropped. */
  function PosixBase(p: seq<char>): seq<char> {
    AfterLastSlash(StripTrailingSlashes(p))
  }

  /** Node's POSIX `path.extname`: the base name from its last dot on; ""
      when the base has no dot after its first character, and for "..". */
  function NodeExtname(p: seq<char>): (r: seq<char>)
    ensures var b := PosixBase(p);
            r == [] <==> (b == ".." || forall i :: 0 < i < |b| ==> b[i] != '.')
    ensures var b := PosixBase(p);
            r != [] ==> r[0] == '.' && '.' !in r[1..] && |r| < |b| && EndsWith(b, r)
  {
    var b := PosixBase(p);
    if b == ".." then
      assert b[1] == '.';
      []
    else SegmentExtname(b)
  }

  /** Without backslashes, trailing slashes or a ".." last segment, Node's
      `extname` and the core's `extnameFromPath` agree. */
  lemma NodeExtnameAgrees(p: seq<char>)
    requires '\\' !in p
    requires p == [] || p[|p| - 1] != '/'
    requires LastSegment(p) != ".."
    ensures NodeExtname(p) == Extname(p)
  {
    AfterLastSlashIsLastSegment(p);
  }

  lemma {:induction false} AfterLastSlashIsLastSegment(p: seq<char>)
    requires '\\' !in p
    ensures AfterLastSlash(p) == LastSegment(p)
    decreases |p|
  {
    if p != [] && p[|p| - 1] != '/' {
      assert '\\' !in p[..|p| - 1] by {
        assert forall i :: 0 <= i < |p| - 1 ==> p[..|p| - 1][i] == p[i];
      }
      AfterLastSlashIsLastSegment(p[..|p| - 1]);
    }
  }

  /** Where the two differ: a trailing slash hides the extension from the
      core but not from Node. */
  lemma TrailingSlashExtnames()
    ensures Extname("a.txt/") == [] && NodeExtname("a.txt/") == ".txt"
  {
    CoreExtnameOfTrailingSlash();
    NodeExtnameOfTrailingSlash();
  }

  lemma CoreExtnameOfTrailingSlash()
    ensures Extname("a.txt/") == []
  {
    assert LastSegment("a.txt/") == [];
  }

  lemma NodeExtnameOfTrailingSlash()
    ensures NodeExtname("a.txt/") == ".txt"
  {
    PosixBaseOfTrailingSlash();
    SegmentExtnameOfTxt();
  }

  lemma PosixBaseOfTrailingSlash()
    ensures PosixBase("a.txt/") == "a.txt"
  {
    assert StripTrailingSlashes("a.txt/") == "a.txt";
    assert AfterLastSlash("a.txt") == "a.txt";
  }

  lemma SegmentExtnameOfTxt()
    ensures SegmentExtname("a.txt") == ".txt"
  {
    assert LastIndexOf("a.txt", '.') == Some(1);
  }

  /** Where the two differ: ".." has the extension "." only for the core. */
  lemma DotDotExtnames()
    ensures Extname("..") == "." && NodeExtname("..") == []
  {
    CoreExtnameOfDotDot();
    NodeExtnameOfDotDot();
  }

  lemma CoreExtnameOfDotDot()
    ensures Extname("..") == "."
  {
    assert LastSegment("..") == "..";
  }

  lemma NodeExtnameOfDotDot()
    ensures NodeExtname("..") == []
  {
    PosixBaseOfDotDot();
  }

  lemma PosixBaseOfDotDot()
    ensures PosixBase("..") == ".."
  {
    assert StripTrailingSlashes("..") == "..";
    assert AfterLastSlash("..") == "..";
  }

  /** The plugin's `buildAttachmentFileName`: as the core's, with Node's
      `extname` deciding whether a name has an extension. */
  function BuildAttachmentFileName(originalName: Option<seq<char>>, sourcePath: seq<char>, attachmentId: seq<char>): (r: seq<char>)
    ensures var base := AttachmentBase(originalName, attachmentId);
            && (NodeExtname(base) != [] ==> r == base)
            && (NodeExtname(base) == [] ==> r == base + NodeExtname(sourcePath))
  {
    var sourceExt := NodeExtname(sourcePath);
    var sourceBase := AttachmentBase(originalName, attachmentId);
    var hasExt := |NodeExtname(sourceBase)| > 0;
    if hasExt then sourceBase
    else if |sourceExt| > 0 then sourceBase + sourceExt
    else sourceBase
  }

  /** On names and paths where the two extension functions agree, the plugin
      and the core name an attachment file alike. */
  lemma AttachmentNamesAgree(originalName: Option<seq<char>>, sourcePath: seq<char>, attachmentId: seq<char>)
    requires var base := AttachmentBase(originalName, attachmentId);
             && '\\' !in base && (base == [] || base[|base| - 1] != '/') && LastSegment(base) != ".."
    requires '\\' !in sourcePath && (sourcePath == [] || sourcePath[|sourcePath| - 1] != '/')
    requires LastSegment(sourcePath) != ".."
    ensures BuildAttachmentFileName(originalName, sourcePath, attachmentId)
            == PathUtils.BuildAttachmentFileName(originalName, sourcePath, attachmentId)
  {
    var base := AttachmentBase(originalName, attachmentId);
    NodeExtnameAgrees(base);
    NodeExtnameAgrees(sourcePath);
    var r := BuildAttachmentFileName(originalName, sourcePath, attachmentId);
    var c := PathUtils.BuildAttachmentFileName(originalName, sourcePath, attachmentId);
    if Extname(base) != [] {
      assert r == base == c;
    } else {
      assert r == base + Extname(sourcePath) == c;
    }
  }
}
